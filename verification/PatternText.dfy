/** What the text of a pattern stands for, piece by piece. */
module PatternText {
  import opened Common
  import opened LuaValues
  import opened PatternSyntax
  import opened PatternMatching
  import opened PatternMatcher
  import opened StringFind
  import opened PatternExtents

  // ----- sets -----

  /** A part of a set: a character, a range, or a class. */
  datatype Part = Chr(c: char) | Range(lo: char, hi: char) | Named(cl: char)

  function PartText(p: Part): Str {
    match p
    case Chr(c) => [c]
    case Range(lo, hi) => [lo, '-', hi]
    case Named(cl) => ['%', cl]
  }

  /** Nothing in it has a meaning of its own within a set. */
  predicate PartPlain(p: Part) {
    match p
    case Chr(c) => c !in "]%^-"
    case Range(lo, hi) => lo !in "]%^-" && hi !in "]%^-"
    case Named(cl) => true
  }

  predicate InRange(lo: char, c: char, hi: char) {
    lo <= c <= hi
  }

  ghost function PartChars(p: Part): iset<char> {
    match p
    case Chr(x) => iset{x}
    case Range(lo, hi) => iset c | InRange(lo, c, hi)
    case Named(cl) => iset c | Names(cl, c)
  }

  function PartsText(ps: seq<Part>): Str {
    if ps == [] then [] else PartText(ps[0]) + PartsText(ps[1..])
  }

  ghost predicate AllPlain(ps: seq<Part>) {
    forall k: nat :: k < |ps| ==> PartPlain(ps[k])
  }

  ghost function SetChars(ps: seq<Part>): iset<char> {
    if ps == [] then iset{} else PartChars(ps[0]) + SetChars(ps[1..])
  }

  /** The text is in the pattern from q on. */
  predicate HereIs(pat: Str, q: nat, text: Str) {
    q + |text| <= |pat| && pat[q..q + |text|] == text
  }

  lemma HereAt(pat: Str, q: nat, text: Str, k: nat)
    requires HereIs(pat, q, text) && k < |text|
    ensures q + k < |pat| && pat[q + k] == text[k]
  {
    assert pat[q..q + |text|][k] == pat[q + k];
  }

  lemma HereSplit(pat: Str, q: nat, a: Str, b: Str)
    requires HereIs(pat, q, a + b)
    ensures HereIs(pat, q, a) && HereIs(pat, q + |a|, b)
  {
    var both := pat[q..q + |a + b|];
    assert both[..|a|] == a && both[|a|..] == b;
    assert pat[q..q + |a|] == both[..|a|] && pat[q + |a|..q + |a| + |b|] == both[|a|..];
  }

  /** The parts and the closing bracket are in the pattern from q on. */
  ghost predicate SetRest(pat: Str, q: nat, ps: seq<Part>) {
    HereIs(pat, q, PartsText(ps) + "]")
  }

  /** The parts are the first one and what follows it. */
  lemma PartsSplit(pat: Str, q: nat, ps: seq<Part>)
    requires |ps| > 0 && SetRest(pat, q, ps)
    ensures var t := PartText(ps[0]);
      HereIs(pat, q, t) && SetRest(pat, q + |t|, ps[1..]) && |PartsText(ps)| == |t| + |PartsText(ps[1..])|
  {
    var t, rest := PartText(ps[0]), PartsText(ps[1..]);
    assert PartsText(ps) == t + rest;
    assert (t + rest) + "]" == t + (rest + "]");
    hide PartsText, PartText, HereIs;
    HereSplit(pat, q, t, rest + "]");
  }

  /** The character where parts begin or the set ends. */
  lemma FirstOf(pat: Str, q: nat, ps: seq<Part>)
    requires AllPlain(ps) && SetRest(pat, q, ps)
    ensures q < |pat| && pat[q] != '-' && (pat[q] == ']' <==> |ps| == 0)
    ensures |ps| > 0 ==> pat[q] != '^'
  {
    var text := PartsText(ps) + "]";
    HereAt(pat, q, text, 0);
    hide HereIs;
    if |ps| == 0 {
      assert text[0] == ']';
    } else {
      assert PartPlain(ps[0]);
      assert text[0] == PartText(ps[0])[0];
    }
  }

  /** Looking for the end of a set goes past a part. */
  lemma PartEnd(pat: Str, q: nat, p: Part)
    requires PartPlain(p) && q + |PartText(p)| < |pat| && HereIs(pat, q, PartText(p))
    ensures BracketEnd(pat, q) ==
      if pat[q + |PartText(p)|] == ']' then Some(q + |PartText(p)| + 1) else BracketEnd(pat, q + |PartText(p)|)
  {
    var t := PartText(p);
    match p
    case Chr(c) => HereAt(pat, q, t, 0);
    case Named(cl) => HereAt(pat, q, t, 0);
    case Range(lo, hi) =>
      HereAt(pat, q, t, 0);
      HereAt(pat, q, t, 1);
      HereAt(pat, q, t, 2);
      assert BracketEnd(pat, q) == BracketEnd(pat, q + 1);
      assert BracketEnd(pat, q + 1) == BracketEnd(pat, q + 2);
  }

  lemma PlainFirst(ps: seq<Part>)
    requires |ps| > 0 && AllPlain(ps)
    ensures PartPlain(ps[0]) && AllPlain(ps[1..]) && (|ps| == 1 ==> |PartsText(ps[1..])| == 0)
  {
    hide PartPlain;
  }

  lemma {:induction false} PartsEnd(pat: Str, q: nat, ps: seq<Part>)
    requires |ps| > 0 && AllPlain(ps) && SetRest(pat, q, ps)
    ensures BracketEnd(pat, q) == Some(q + |PartsText(ps)| + 1)
    decreases |ps|
  {
    hide *;
    var q', rest := q + |PartText(ps[0])|, ps[1..];
    PlainFirst(ps);
    PartsSplit(pat, q, ps);
    FirstOf(pat, q', rest);
    if pat[q'] != ']' {
      PartsEnd(pat, q', rest);
    }
    EndStep(pat, q, ps[0], |PartsText(rest)|);
  }

  lemma EndStep(pat: Str, q: nat, p: Part, m: nat)
    requires PartPlain(p) && q + |PartText(p)| < |pat| && HereIs(pat, q, PartText(p))
    requires var q' := q + |PartText(p)|; if pat[q'] == ']' then m == 0 else BracketEnd(pat, q') == Some(q' + m + 1)
    ensures BracketEnd(pat, q) == Some(q + |PartText(p)| + m + 1)
  {
    hide PartText, PartPlain, BracketEnd, HereIs;
    PartEnd(pat, q, p);
  }

  /** A part takes its own characters. */
  lemma PartMeans(c: char, pat: Str, q: nat, p: Part, ec: nat)
    requires PartPlain(p) && q + |PartText(p)| <= ec < |pat| && HereIs(pat, q, PartText(p))
    requires pat[q + |PartText(p)|] != '-'
    ensures InSet(c, pat, q, ec) == ((c in PartChars(p)) || InSet(c, pat, q + |PartText(p)|, ec))
  {
    var t := PartText(p);
    HereAt(pat, q, t, 0);
    hide MatchClass, Names;
    match p
    case Chr(x) =>
    case Named(cl) =>
      HereAt(pat, q, t, 1);
      NamesMean(cl, c);
    case Range(lo, hi) =>
      HereAt(pat, q, t, 1);
      HereAt(pat, q, t, 2);
  }

  lemma SetCharsFirst(ps: seq<Part>)
    requires |ps| > 0
    ensures SetChars(ps) == PartChars(ps[0]) + SetChars(ps[1..])
  {
  }

  lemma {:induction false} PartsMean(c: char, pat: Str, q: nat, ps: seq<Part>, ec: nat)
    requires AllPlain(ps) && SetRest(pat, q, ps) && ec == q + |PartsText(ps)| && ec < |pat|
    ensures InSet(c, pat, q, ec) == (c in SetChars(ps))
    decreases |ps|
  {
    hide *;
    if |ps| == 0 {
      NoParts(c, pat, q, ps, ec);
    } else {
      PlainFirst(ps);
      var t, rest := PartText(ps[0]), ps[1..];
      PartsSplit(pat, q, ps);
      PartsMean(c, pat, q + |t|, rest, ec);
      FirstOf(pat, q + |t|, rest);
      PartMeans(c, pat, q, ps[0], ec);
      SetCharsFirst(ps);
    }
  }

  lemma NoParts(c: char, pat: Str, q: nat, ps: seq<Part>, ec: nat)
    requires |ps| == 0 && ec == q + |PartsText(ps)| && ec < |pat|
    ensures !InSet(c, pat, q, ec) && c !in SetChars(ps)
  {
  }

  /** The text of a set, or of the complement of one. */
  function SetText(complement: bool, ps: seq<Part>): Str {
    (if complement then "[^" else "[") + (PartsText(ps) + "]")
  }

  /** A set ends at its closing bracket and holds the characters of its parts; with `^` it
      holds all the others. */
  lemma SetMeans(c: char, pat: Str, p: nat, complement: bool, ps: seq<Part>)
    requires |ps| > 0 && AllPlain(ps) && HereIs(pat, p, SetText(complement, ps))
    ensures var ep := p + |SetText(complement, ps)|;
      && ep <= |pat| && ClassOk(pat, p, ep)
      && InClass(c, pat, p, ep) == ((c in SetChars(ps)) != complement)
  {
    hide *;
    SetSplit(pat, p, complement, ps);
    var q, ec := if complement then p + 2 else p + 1, p + |SetText(complement, ps)| - 1;
    PartsEnd(pat, q, ps);
    PartsMean(c, pat, q, ps, ec);
    FirstOf(pat, q, ps);
    SetOpens(c, pat, p, complement, ec);
  }

  lemma SetSplit(pat: Str, p: nat, complement: bool, ps: seq<Part>)
    requires HereIs(pat, p, SetText(complement, ps))
    ensures p + |SetText(complement, ps)| <= |pat| && pat[p] == '[' && (complement ==> pat[p + 1] == '^')
    ensures var q := if complement then p + 2 else p + 1;
      SetRest(pat, q, ps) && q + |PartsText(ps)| + 1 == p + |SetText(complement, ps)|
  {
    var open := if complement then "[^" else "[";
    hide PartsText;
    HereSplit(pat, p, open, PartsText(ps) + "]");
    HereAt(pat, p, open, 0);
    if complement { HereAt(pat, p, open, 1); }
  }

  lemma SetOpens(c: char, pat: Str, p: nat, complement: bool, ec: nat)
    requires p + 1 < ec < |pat| && pat[p] == '[' && (pat[p + 1] == '^' <==> complement)
    requires BracketEnd(pat, if complement then p + 2 else p + 1) == Some(ec + 1)
    ensures ClassOk(pat, p, ec + 1)
    ensures InClass(c, pat, p, ec + 1) == (InSet(c, pat, if complement then p + 2 else p + 1, ec) != complement)
  {
    hide BracketEnd, InSet;
  }
}
