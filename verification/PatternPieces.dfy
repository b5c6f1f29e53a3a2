/** Patterns as they are written: a text of pieces is read back as the items for these pieces. */
module PatternPieces {
  import opened Common
  import opened LuaValues
  import opened PatternSyntax
  import opened PatternMatching
  import opened PatternMatcher
  import opened StringFind
  import opened PatternExtents
  import opened PatternText

  // ----- classes as they are written -----

  datatype Class = Plain(c: char) | Any | Percent(x: char) | Set(complement: bool, parts: seq<Part>)

  function ClassText(cl: Class): (t: Str)
    ensures t != []
  {
    match cl
    case Plain(c) => [c]
    case Any => "."
    case Percent(x) => ['%', x]
    case Set(complement, parts) => SetText(complement, parts)
  }

  /** Plain characters have no meaning of their own but at the start and the end of a pattern;
      `%b`, `%f` and `%1` are not classes. */
  ghost predicate ClassPlain(cl: Class) {
    match cl
    case Plain(c) => c !in "*+?.([%-)"
    case Any => true
    case Percent(x) => x != 'b' && x != 'f' && !('0' <= x <= '9')
    case Set(_, parts) => |parts| > 0 && AllPlain(parts)
  }

  predicate Anything(c: char) {
    true
  }

  ghost function ClassChars(cl: Class): iset<char> {
    match cl
    case Plain(c) => iset{c}
    case Any => iset c | Anything(c)
    case Percent(x) => iset c | Names(x, c)
    case Set(complement, parts) => if complement then (iset c | c !in SetChars(parts)) else SetChars(parts)
  }

  ghost predicate ClassIs(pat: Str, p: nat, ep: nat, cl: Class) {
    ClassOk(pat, p, ep) && forall c :: InClass(c, pat, p, ep) <==> c in ClassChars(cl)
  }

  /** The text of a class is read as a class of these characters. */
  lemma ClassRead(pat: Str, p: nat, cl: Class)
    requires ClassPlain(cl) && HereIs(pat, p, ClassText(cl))
    ensures p < |pat| && ClassIs(pat, p, p + |ClassText(cl)|, cl)
  {
    hide SetChars, AllPlain, SetText, HereIs, ClassOk, InClass, Names;
    HereAt(pat, p, ClassText(cl), 0);
    match cl
    case Plain(c) => PlainRead(pat, p, c);
    case Any => AnyRead(pat, p);
    case Percent(x) => PercentRead(pat, p, x);
    case Set(complement, parts) => SetRead(pat, p, complement, parts);
  }

  lemma PlainRead(pat: Str, p: nat, c: char)
    requires c !in ".[%" && HereIs(pat, p, [c])
    ensures p < |pat| && ClassIs(pat, p, p + 1, Plain(c))
  {
    HereAt(pat, p, [c], 0);
  }

  lemma AnyRead(pat: Str, p: nat)
    requires HereIs(pat, p, ".")
    ensures p < |pat| && ClassIs(pat, p, p + 1, Any)
  {
    HereAt(pat, p, ".", 0);
  }

  lemma PercentRead(pat: Str, p: nat, x: char)
    requires HereIs(pat, p, ['%', x])
    ensures p < |pat| && ClassIs(pat, p, p + 2, Percent(x))
  {
    hide MatchClass, Names;
    HereAt(pat, p, ['%', x], 0);
    HereAt(pat, p, ['%', x], 1);
    forall c: char ensures MatchClass(c, x) <==> Names(x, c) { NamesMean(x, c); }
  }

  lemma SetRead(pat: Str, p: nat, complement: bool, parts: seq<Part>)
    requires |parts| > 0 && AllPlain(parts) && HereIs(pat, p, SetText(complement, parts))
    ensures ClassIs(pat, p, p + |SetText(complement, parts)|, Set(complement, parts))
  {
    hide InClass, ClassOk, AllPlain, HereIs, SetText, SetChars;
    var ep := p + |SetText(complement, parts)|;
    SetMeans('x', pat, p, complement, parts);
    forall c: char ensures InClass(c, pat, p, ep) == ((c in SetChars(parts)) != complement) {
      SetMeans(c, pat, p, complement, parts);
    }
  }

  // ----- pieces -----

  datatype Piece =
    | Take(cl: Class, suffix: Suffix)
    | Group
    | Place
    | End
    | Again(d: char)
    | Between(x: char, y: char)
    | Border(complement: bool, parts: seq<Part>)
    | Last

  function SuffixText(s: Suffix): Str {
    match s
    case One => ""
    case Opt => "?"
    case Star => "*"
    case Plus => "+"
    case Minus => "-"
  }

  function PieceText(e: Piece): (t: Str)
    ensures t != []
  {
    match e
    case Take(cl, suffix) => ClassText(cl) + SuffixText(suffix)
    case Group => "("
    case Place => "()"
    case End => ")"
    case Again(d) => ['%', d]
    case Between(x, y) => ['%', 'b', x, y]
    case Border(complement, parts) => "%f" + SetText(complement, parts)
    case Last => "$"
  }

  ghost predicate PiecePlain(e: Piece) {
    match e
    case Take(cl, _) => ClassPlain(cl)
    case Again(d) => '0' <= d <= '9'
    case Border(_, parts) => |parts| > 0 && AllPlain(parts)
    case _ => true
  }

  /** The item that a piece stands for. */
  ghost predicate Stands(pat: Str, item: Item, e: Piece) {
    match e
    case Take(cl, suffix) => item.Single? && item.suffix == suffix && ClassIs(pat, item.p, item.ep, cl)
    case Group => item == Open
    case Place => item == Position
    case End => item == Close
    case Again(d) => item == Back(d as int - '1' as int)
    case Between(x, y) => item == Balance(x, y)
    case Border(complement, parts) => item.Frontier? && ClassIs(pat, item.p, item.ep, Set(complement, parts))
    case Last => item == AtEnd
  }

  /** What comes after a piece is not taken for a part of it. */
  predicate Apart(pat: Str, q: nat, e: Piece) {
    && CharAt(pat, q) !in "?*+-"
    && (e.Group? ==> CharAt(pat, q) != ')')
    && (e.Last? ==> q == |pat|)
    && (e == Take(Plain('$'), One) ==> q != |pat|)
  }

  ghost predicate ReadAs(pat: Str, p: nat, e: Piece) {
    && p < |pat| && TokenAt(pat, p).Token? && TokenAt(pat, p).next == p + |PieceText(e)|
    && Stands(pat, TokenAt(pat, p).item, e)
  }

  /** The text of a piece is read as this piece. */
  lemma PieceRead(pat: Str, p: nat, e: Piece)
    requires PiecePlain(e) && HereIs(pat, p, PieceText(e)) && Apart(pat, p + |PieceText(e)|, e)
    ensures ReadAs(pat, p, e)
  {
    var t := PieceText(e);
    match e
    case Take(cl, suffix) => TakeRead(pat, p, cl, suffix);
    case Border(complement, parts) => BorderRead(pat, p, complement, parts);
    case Group => HereAt(pat, p, t, 0);
    case Place =>
      HereAt(pat, p, t, 0);
      HereAt(pat, p, t, 1);
    case End => HereAt(pat, p, t, 0);
    case Again(d) =>
      HereAt(pat, p, t, 0);
      HereAt(pat, p, t, 1);
    case Between(x, y) =>
      HereAt(pat, p, t, 0);
      HereAt(pat, p, t, 1);
      HereAt(pat, p, t, 2);
      HereAt(pat, p, t, 3);
    case Last => HereAt(pat, p, t, 0);
  }

  lemma TakeRead(pat: Str, p: nat, cl: Class, suffix: Suffix)
    requires ClassPlain(cl) && HereIs(pat, p, PieceText(Take(cl, suffix)))
    requires Apart(pat, p + |PieceText(Take(cl, suffix))|, Take(cl, suffix))
    ensures ReadAs(pat, p, Take(cl, suffix))
  {
    hide *;
    var ep := p + |ClassText(cl)|;
    TakeText(cl, suffix);
    HereSplit(pat, p, ClassText(cl), SuffixText(suffix));
    ClassRead(pat, p, cl);
    SuffixLength(pat, p, cl, suffix);
    SuffixRead(pat, p, cl, ep, suffix);
    SingleRead(pat, p, cl);
    TakeStands(pat, p, cl, ep, suffix);
  }

  /** A `$` that stands for itself is not the last character. */
  lemma SuffixLength(pat: Str, p: nat, cl: Class, suffix: Suffix)
    requires HereIs(pat, p, PieceText(Take(cl, suffix)))
    requires Apart(pat, p + |PieceText(Take(cl, suffix))|, Take(cl, suffix))
    ensures cl == Plain('$') ==> p + 1 != |pat|
    ensures CharAt(pat, p + |ClassText(cl)| + |SuffixText(suffix)|) !in "?*+-"
  {
  }

  lemma TakeText(cl: Class, suffix: Suffix)
    ensures PieceText(Take(cl, suffix)) == ClassText(cl) + SuffixText(suffix)
  {
  }

  lemma TakeStands(pat: Str, p: nat, cl: Class, ep: nat, suffix: Suffix)
    requires p < |pat| && ClassIs(pat, p, ep, cl)
    requires TokenAt(pat, p) == Token(Single(p, ep, suffix), p + |PieceText(Take(cl, suffix))|)
    ensures ReadAs(pat, p, Take(cl, suffix))
  {
    hide TokenAt, PieceText, ClassIs;
  }

  /** The character after a class that is a suffix is taken for one. */
  lemma SuffixRead(pat: Str, p: nat, cl: Class, ep: nat, suffix: Suffix)
    requires p < |pat| && ClassIs(pat, p, ep, cl) && HereIs(pat, ep, SuffixText(suffix))
    requires CharAt(pat, ep + |SuffixText(suffix)|) !in "?*+-"
    ensures SingleToken(pat, p) == Token(Single(p, ep, suffix), ep + |SuffixText(suffix)|)
  {
    hide ClassEnd, InClass, ClassChars;
    if !suffix.One? { HereAt(pat, ep, SuffixText(suffix), 0); }
  }

  lemma SingleRead(pat: Str, p: nat, cl: Class)
    requires p < |pat| && ClassPlain(cl) && HereIs(pat, p, ClassText(cl)) && (cl == Plain('$') ==> p + 1 != |pat|)
    ensures TokenAt(pat, p) == SingleToken(pat, p)
  {
    hide HereIs, SingleToken, AllPlain, PartsText;
    HereAt(pat, p, ClassText(cl), 0);
    if cl.Percent? { HereAt(pat, p, ClassText(cl), 1); }
  }

  lemma BorderRead(pat: Str, p: nat, complement: bool, parts: seq<Part>)
    requires |parts| > 0 && AllPlain(parts) && HereIs(pat, p, PieceText(Border(complement, parts)))
    ensures ReadAs(pat, p, Border(complement, parts))
  {
    hide *;
    var text := SetText(complement, parts);
    BorderText(complement, parts);
    HereSplit(pat, p, "%f", text);
    SetRead(pat, p + 2, complement, parts);
    BorderToken(pat, p, complement, parts);
    BorderStands(pat, p, complement, parts);
  }

  lemma BorderText(complement: bool, parts: seq<Part>)
    ensures PieceText(Border(complement, parts)) == "%f" + SetText(complement, parts)
    ensures |PieceText(Border(complement, parts))| == 2 + |SetText(complement, parts)| && |"%f"| == 2
  {
  }

  lemma BorderToken(pat: Str, p: nat, complement: bool, parts: seq<Part>)
    requires HereIs(pat, p, "%f") && HereIs(pat, p + 2, SetText(complement, parts))
    requires var ep := p + 2 + |SetText(complement, parts)|; ClassIs(pat, p + 2, ep, Set(complement, parts))
    ensures p < |pat|
    ensures var ep := p + 2 + |SetText(complement, parts)|; TokenAt(pat, p) == Token(Frontier(p + 2, ep), ep)
  {
    hide HereIs, BracketEnd, InClass, ClassChars, PartsText;
    HereAt(pat, p, "%f", 0);
    HereAt(pat, p, "%f", 1);
    HereAt(pat, p + 2, SetText(complement, parts), 0);
  }

  lemma BorderStands(pat: Str, p: nat, complement: bool, parts: seq<Part>)
    requires var ep := p + |PieceText(Border(complement, parts))|;
      && p < |pat| && TokenAt(pat, p) == Token(Frontier(p + 2, ep), ep)
      && ClassIs(pat, p + 2, ep, Set(complement, parts))
    ensures ReadAs(pat, p, Border(complement, parts))
  {
    hide TokenAt, PieceText, ClassIs;
  }

  // ----- captures -----

  /** Captures are counted, and those still open are known: 32 at most; an end closes an open
      one; a reference is to one that is closed. */
  predicate Fits(e: Piece, n: nat, open: seq<nat>) {
    match e
    case Group => n < 32
    case Place => n < 32
    case End => |open| > 0
    case Again(d) => '1' <= d && d as int - '1' as int < n && (d as int - '1' as int) !in open
    case _ => true
  }

  function Count(e: Piece, n: nat): nat {
    if e.Group? || e.Place? then n + 1 else n
  }

  function Opened(e: Piece, n: nat, open: seq<nat>): seq<nat> {
    if e.Group? then open + [n] else if e.End? && |open| > 0 then open[..|open| - 1] else open
  }

  predicate Nested(es: seq<Piece>, n: nat, open: seq<nat>) {
    |es| > 0 ==> Fits(es[0], n, open) && Nested(es[1..], Count(es[0], n), Opened(es[0], n, open))
  }

  ghost predicate Tracks(st: seq<Status>, open: seq<nat>) {
    && (forall k: nat :: k < |st| ==> (st[k].Unfinished? <==> k in open))
    && (forall k: nat :: k < |open| ==> open[k] < |st|)
    && (forall k: nat, m: nat :: k < m < |open| ==> open[k] < open[m])
  }

  /** The capture that is closed is the one opened last. */
  lemma {:induction false} ClosesLast(st: seq<Status>, open: seq<nat>)
    requires Tracks(st, open)
    ensures ToCloseIn(st) == if |open| == 0 then -1 else open[|open| - 1]
    decreases |st|
  {
    if |st| > 0 {
      var k := |st| - 1;
      if st[k].Unfinished? {
        assert k in open && open[|open| - 1] >= k;
      } else {
        assert k !in open;
        ClosesLast(st[..k], open);
      }
    }
  }

  lemma FitsStatus(pat: Str, item: Item, e: Piece, st: seq<Status>, open: seq<nat>)
    requires Tracks(st, open) && Stands(pat, item, e)
    ensures ItemWell(item, st) <==> Fits(e, |st|, open)
    ensures Fits(e, |st|, open) ==>
      |NextStatus(item, st)| == Count(e, |st|) && Tracks(NextStatus(item, st), Opened(e, |st|, open))
  {
    hide ClassIs, ToCloseIn, Tracks;
    match e
    case Group => NewTracked(st, open);
    case Place => NewTracked(st, open);
    case End => EndTracked(st, open);
    case Again(d) => BackTracked(st, open, d as int - '1' as int);
    case _ =>
  }

  lemma NewTracked(st: seq<Status>, open: seq<nat>)
    requires Tracks(st, open)
    ensures Tracks(st + [Unfinished], open + [|st|]) && Tracks(st + [Pos], open)
  {
  }

  lemma BackTracked(st: seq<Status>, open: seq<nat>, l: int)
    requires Tracks(st, open)
    ensures 0 <= l < |st| ==> (st[l].Unfinished? <==> l in open)
  {
  }

  lemma EndTracked(st: seq<Status>, open: seq<nat>)
    requires Tracks(st, open)
    ensures ToCloseIn(st) == if |open| == 0 then -1 else open[|open| - 1]
    ensures |open| > 0 ==> Tracks(st[open[|open| - 1] := Closed], open[..|open| - 1])
  {
    ClosesLast(st, open);
    hide ToCloseIn;
    if |open| > 0 {
      var l, open' := open[|open| - 1], open[..|open| - 1];
      assert open == open' + [l];
      assert l in open;
    }
  }

  // ----- texts -----

  function Text(es: seq<Piece>): Str {
    if |es| == 0 then [] else PieceText(es[0]) + Text(es[1..])
  }

  /** A last `$` stands for the end, any other for itself; an end right after a group is a place. */
  ghost predicate Writable(es: seq<Piece>) {
    forall k: nat :: k < |es| ==>
      && PiecePlain(es[k])
      && (es[k].Last? ==> k == |es| - 1)
      && (es[k] == Take(Plain('$'), One) ==> k < |es| - 1)
      && (es[k].Group? && k + 1 < |es| ==> !es[k + 1].End?)
  }

  /** The rest of the pattern from p on. */
  ghost predicate Rest(pat: Str, p: nat, es: seq<Piece>) {
    HereIs(pat, p, Text(es)) && p + |Text(es)| == |pat|
  }

  lemma RestStep(pat: Str, p: nat, es: seq<Piece>)
    requires |es| > 0 && Rest(pat, p, es)
    ensures HereIs(pat, p, PieceText(es[0])) && Rest(pat, p + |PieceText(es[0])|, es[1..])
  {
    var t, rest := PieceText(es[0]), Text(es[1..]);
    assert Text(es) == t + rest;
    hide HereIs, PieceText, Text;
    HereSplit(pat, p, t, rest);
  }

  lemma PieceFirst(e: Piece)
    requires PiecePlain(e)
    ensures PieceText(e)[0] !in "?*+-" && (PieceText(e)[0] == ')' ==> e.End?)
    ensures PieceText(e)[0] == '^' ==> e.Take? && e.cl == Plain('^')
  {
  }

  lemma RestFirst(pat: Str, p: nat, es: seq<Piece>)
    requires Writable(es) && Rest(pat, p, es)
    ensures CharAt(pat, p) !in "?*+-"
    ensures CharAt(pat, p) == ')' ==> |es| > 0 && es[0].End?
    ensures CharAt(pat, p) == '^' ==> |es| > 0 && es[0].Take? && es[0].cl == Plain('^')
    ensures |es| == 0 <==> p == |pat|
  {
    if |es| > 0 {
      assert PiecePlain(es[0]);
      hide PieceText, PiecePlain, HereIs, Text;
      RestStep(pat, p, es);
      HereAt(pat, p, PieceText(es[0]), 0);
      PieceFirst(es[0]);
    }
  }

  lemma WritableStep(es: seq<Piece>)
    requires |es| > 0 && Writable(es)
    ensures PiecePlain(es[0]) && Writable(es[1..])
    ensures es[0].Last? ==> |es| == 1
    ensures es[0] == Take(Plain('$'), One) ==> |es| > 1
    ensures es[0].Group? && |es| > 1 ==> !es[1].End?
  {
    hide PiecePlain;
    assert forall k: nat :: k < |es[1..]| ==> es[1..][k] == es[k + 1];
  }

  /** Items for the pieces, one for each. */
  ghost predicate Stand(pat: Str, items: seq<Item>, es: seq<Piece>) {
    |items| == |es| && forall k: nat :: k < |es| ==> Stands(pat, items[k], es[k])
  }

  lemma StandCons(pat: Str, item: Item, items: seq<Item>, es: seq<Piece>)
    requires |es| > 0 && Stands(pat, item, es[0])
    ensures Stand(pat, items, es[1..]) ==> Stand(pat, [item] + items, es)
    ensures EndsBad(items) ==> EndsBad([item] + items)
  {
    hide Stands;
    if Stand(pat, items, es[1..]) {
      forall k: nat | k < |es| ensures Stands(pat, ([item] + items)[k], es[k]) {
        if k > 0 { assert es[1..][k - 1] == es[k]; }
      }
    }
  }

  lemma ApartHere(pat: Str, p: nat, es: seq<Piece>)
    requires |es| > 0 && Writable(es) && Rest(pat, p, es)
    ensures Apart(pat, p + |PieceText(es[0])|, es[0])
  {
    hide PieceText, PiecePlain, HereIs, Text;
    WritableStep(es);
    RestStep(pat, p, es);
    RestFirst(pat, p + |PieceText(es[0])|, es[1..]);
  }

  lemma StandNotBad(pat: Str, items: seq<Item>, es: seq<Piece>)
    requires Stand(pat, items, es)
    ensures !EndsBad(items)
  {
    hide ClassIs;
  }

  /** A text of pieces is read as these pieces as long as their captures fit. */
  lemma {:induction false} TextRead(pat: Str, p: nat, es: seq<Piece>, st: seq<Status>, open: seq<nat>)
    requires Writable(es) && Rest(pat, p, es) && Tracks(st, open) && p <= |pat|
    ensures Nested(es, |st|, open) ==> Stand(pat, Items(pat, p, st), es)
    ensures !Nested(es, |st|, open) ==> EndsBad(Items(pat, p, st))
    decreases |es|
  {
    hide *;
    RestFirst(pat, p, es);
    if |es| == 0 {
      NothingRead(pat, p, es, st, open);
    } else {
      WritableStep(es);
      RestStep(pat, p, es);
      ApartHere(pat, p, es);
      PieceRead(pat, p, es[0]);
      ReadIs(pat, p, es[0]);
      var t := TokenAt(pat, p);
      FitsStatus(pat, t.item, es[0], st, open);
      ItemsStep(pat, p, st);
      NestedStep(es, |st|, open);
      if Fits(es[0], |st|, open) {
        var st', open' := NextStatus(t.item, st), Opened(es[0], |st|, open);
        TextRead(pat, t.next, es[1..], st', open');
        StandCons(pat, t.item, Items(pat, t.next, st'), es);
      }
    }
  }

  lemma ReadIs(pat: Str, p: nat, e: Piece)
    requires ReadAs(pat, p, e)
    ensures p < |pat| && TokenAt(pat, p).Token? && TokenAt(pat, p).next == p + |PieceText(e)|
    ensures Stands(pat, TokenAt(pat, p).item, e)
  {
  }

  lemma NothingRead(pat: Str, p: nat, es: seq<Piece>, st: seq<Status>, open: seq<nat>)
    requires |es| == 0 && p == |pat|
    ensures Nested(es, |st|, open) && Stand(pat, Items(pat, p, st), es)
  {
  }

  lemma NestedStep(es: seq<Piece>, n: nat, open: seq<nat>)
    requires |es| > 0
    ensures Nested(es, n, open) ==
      (Fits(es[0], n, open) && Nested(es[1..], Count(es[0], n), Opened(es[0], n, open)))
  {
  }

  lemma ItemsStep(pat: Str, p: nat, st: seq<Status>)
    requires p < |pat| && TokenAt(pat, p).Token?
    ensures var t := TokenAt(pat, p);
      && (ItemWell(t.item, st) ==> Items(pat, p, st) == [t.item] + Items(pat, t.next, NextStatus(t.item, st)))
      && (!ItemWell(t.item, st) ==> EndsBad(Items(pat, p, st)))
  {
    hide TokenAt;
  }

  /** A pattern of pieces, perhaps with an anchor before them. */
  function Written(anchor: bool, es: seq<Piece>): Str {
    if anchor then "^" + Text(es) else Text(es)
  }

  /** A first `^` that is no anchor would be taken for one. */
  ghost predicate Readable(anchor: bool, es: seq<Piece>) {
    Writable(es) && (!anchor && |es| > 0 && es[0].Take? ==> es[0].cl != Plain('^'))
  }

  lemma WrittenRest(anchor: bool, es: seq<Piece>)
    requires Readable(anchor, es)
    ensures var pat := Written(anchor, es);
      Body(pat) <= |pat| && Rest(pat, Body(pat), es) && (CharAt(pat, 0) == '^' <==> anchor)
  {
    var pat := Written(anchor, es);
    hide Text, Writable;
    if anchor {
      assert pat[0] == '^';
      assert pat[1..1 + |Text(es)|] == Text(es);
    } else {
      assert pat[0..0 + |pat|] == pat;
      assert Rest(pat, 0, es);
      hide HereIs, Rest;
      RestFirst(pat, 0, es);
    }
  }

  /** What is written is read: an item for each piece. And a pattern is well formed exactly if
      its captures fit. */
  lemma WrittenRead(anchor: bool, es: seq<Piece>)
    requires Readable(anchor, es)
    ensures var pat := Written(anchor, es);
      && (CharAt(pat, 0) == '^' <==> anchor)
      && (Nested(es, 0, []) ==> Stand(pat, ItemsOf(pat), es))
      && (WellFormed(pat) <==> Nested(es, 0, []))
  {
    hide Text, Written, Items, Writable, Nested, Stand, EndsBad, Rest, CharAt, Body;
    var pat := Written(anchor, es);
    WrittenRest(anchor, es);
    TextRead(pat, Body(pat), es, Statuses([]), []);
    if Nested(es, 0, []) { StandNotBad(pat, ItemsOf(pat), es); }
  }
}
