/** Patterns: what the characters of a pattern stand for. */
module PatternSyntax {
  import opened Common
  import opened LuaValues

  type Str = seq<char>

  const MAXCAPTURES: nat := 32

  /** Strings are followed by a zero byte. */
  function CharAt(s: Str, i: nat): char {
    if i < |s| then s[i] else '\0'
  }

  datatype Suffix = One | Opt | Star | Plus | Minus

  /** A single character class is the part of the pattern from p to ep. Bad is the place
      where a pattern is malformed. */
  datatype Item =
    | Open
    | Position
    | Close
    | AtEnd
    | Balance(b: char, e: char)
    | Frontier(p: nat, ep: nat)
    | Back(l: int)
    | Single(p: nat, ep: nat, suffix: Suffix)
    | Bad

  datatype Token = Malformed | Token(item: Item, next: nat)

  /** Where a bracket class that goes on at q ends. */
  function BracketEnd(pat: Str, q: nat): (e: Option<nat>)
    ensures e.Some? ==> q + 1 < e.value <= |pat|
    decreases |pat| - q
  {
    if q >= |pat| then None else
    var q' := if pat[q] == '%' && q + 1 < |pat| then q + 2 else q + 1;
    if CharAt(pat, q') == ']' then Some(q' + 1) else BracketEnd(pat, q')
  }

  /** Where the class that starts at p ends. */
  function ClassEnd(pat: Str, p: nat): (e: Option<nat>)
    requires p < |pat|
    ensures e.Some? ==> p < e.value <= |pat|
    ensures e.Some? && (pat[p] == '%' || pat[p] == '[') ==> p + 2 <= e.value
  {
    if pat[p] == '%' then
      if p + 1 == |pat| then None else Some(p + 2)
    else if pat[p] == '[' then
      BracketEnd(pat, if CharAt(pat, p + 1) == '^' then p + 2 else p + 1)
    else Some(p + 1)
  }

  function SuffixOf(c: char): Suffix {
    if c == '?' then Opt else if c == '*' then Star else if c == '+' then Plus else if c == '-' then Minus else One
  }

  function SingleToken(pat: Str, p: nat): (t: Token)
    requires p < |pat|
    ensures t.Token? ==> p < t.next <= |pat|
  {
    match ClassEnd(pat, p)
    case None => Malformed
    case Some(ep) =>
      var suffix := SuffixOf(CharAt(pat, ep));
      Token(Single(p, ep, suffix), if suffix.One? then ep else ep + 1)
  }

  predicate IsDigit(c: char) {
    '0' <= c <= '9'
  }

  /** The item at p. */
  function TokenAt(pat: Str, p: nat): (t: Token)
    requires p < |pat|
    ensures t.Token? ==> p < t.next <= |pat|
  {
    var c, c' := pat[p], CharAt(pat, p + 1);
    if c == '(' then (if c' == ')' then Token(Position, p + 2) else Token(Open, p + 1))
    else if c == ')' then Token(Close, p + 1)
    else if c == '$' && p + 1 == |pat| then Token(AtEnd, p + 1)
    else if c == '%' && c' == 'b' then
      if p + 3 >= |pat| then Malformed else Token(Balance(pat[p + 2], pat[p + 3]), p + 4)
    else if c == '%' && c' == 'f' then
      if CharAt(pat, p + 2) != '[' then Malformed else
      (match ClassEnd(pat, p + 2)
       case None => Malformed
       case Some(ep) => Token(Frontier(p + 2, ep), ep))
    else if c == '%' && IsDigit(c') then Token(Back(c' as int - '1' as int), p + 2)
    else SingleToken(pat, p)
  }

  // ----- captures -----

  datatype Status = Unfinished | Closed | Pos

  function ToCloseIn(st: seq<Status>): (l: int)
    ensures -1 <= l < |st|
  {
    if st == [] then -1 else if st[|st| - 1].Unfinished? then |st| - 1 else ToCloseIn(st[..|st| - 1])
  }

  /** No more captures than there is room for; every close has an open one, every reference
      a closed one. */
  predicate ItemWell(item: Item, st: seq<Status>) {
    match item
    case Open => |st| < MAXCAPTURES
    case Position => |st| < MAXCAPTURES
    case Close => ToCloseIn(st) >= 0
    case Back(l) => 0 <= l < |st| && !st[l].Unfinished?
    case _ => true
  }

  function NextStatus(item: Item, st: seq<Status>): seq<Status> {
    match item
    case Open => st + [Unfinished]
    case Position => st + [Pos]
    case Close => if ToCloseIn(st) >= 0 then st[ToCloseIn(st) := Closed] else st
    case _ => st
  }

  /** Whether there is an item at p that can be used, after captures of the given status. */
  predicate Usable(pat: Str, p: nat, st: seq<Status>) {
    p < |pat| && TokenAt(pat, p).Token? && ItemWell(TokenAt(pat, p).item, st)
  }

  /** All items from p on; they end in Bad if the pattern is malformed. */
  function Items(pat: Str, p: nat, st: seq<Status>): seq<Item>
    requires p <= |pat|
    decreases |pat| - p
  {
    if p == |pat| then []
    else if !Usable(pat, p, st) then [Bad]
    else
      var t := TokenAt(pat, p);
      [t.item] + Items(pat, t.next, NextStatus(t.item, st))
  }

  predicate EndsBad(items: seq<Item>) {
    items != [] && items[|items| - 1].Bad?
  }

  // ----- character classes -----

  predicate IsLower(c: char) { 'a' <= c <= 'z' }

  predicate IsUpper(c: char) { 'A' <= c <= 'Z' }

  predicate IsAlpha(c: char) { IsLower(c) || IsUpper(c) }

  predicate IsAlnum(c: char) { IsAlpha(c) || IsDigit(c) }

  predicate IsSpace(c: char) { c == ' ' || 9 as char <= c <= 13 as char }

  predicate IsCntrl(c: char) { c < ' ' || c == 127 as char }

  predicate IsGraph(c: char) { '!' <= c <= '~' }

  predicate IsPunct(c: char) { IsGraph(c) && !IsAlnum(c) }

  predicate IsXDigit(c: char) { IsDigit(c) || 'a' <= c <= 'f' || 'A' <= c <= 'F' }

  function ToLower(c: char): char {
    if IsUpper(c) then (c as int + 32) as char else c
  }

  /** `%cl`: a letter names a class, in upper case its complement; anything else is itself. */
  predicate MatchClass(c: char, cl: char) {
    var l := ToLower(cl);
    if l !in "acdglpsuwxz" then cl == c else
    var res :=
      if l == 'a' then IsAlpha(c)
      else if l == 'c' then IsCntrl(c)
      else if l == 'd' then IsDigit(c)
      else if l == 'g' then IsGraph(c)
      else if l == 'l' then IsLower(c)
      else if l == 'p' then IsPunct(c)
      else if l == 's' then IsSpace(c)
      else if l == 'u' then IsUpper(c)
      else if l == 'w' then IsAlnum(c)
      else if l == 'x' then IsXDigit(c)
      else c == '\0';
    if IsLower(cl) then res else !res
  }

  /** One of the parts of a set from q up to the closing bracket at ec is met. */
  predicate InSet(c: char, pat: Str, q: nat, ec: nat)
    requires ec < |pat|
    decreases ec - q
  {
    if q >= ec then false
    else if pat[q] == '%' then MatchClass(c, CharAt(pat, q + 1)) || InSet(c, pat, q + 2, ec)
    else if CharAt(pat, q + 1) == '-' && q + 2 < ec then (pat[q] <= c <= pat[q + 2]) || InSet(c, pat, q + 3, ec)
    else pat[q] == c || InSet(c, pat, q + 1, ec)
  }

  /** The set between the bracket at p and the one at ec; `^` makes it the complement. */
  predicate InBracket(c: char, pat: Str, p: nat, ec: nat)
    requires p < ec < |pat|
  {
    if CharAt(pat, p + 1) == '^' then !InSet(c, pat, p + 2, ec) else InSet(c, pat, p + 1, ec)
  }

  /** A class from p to ep that can be looked at. */
  predicate ClassOk(pat: Str, p: nat, ep: nat) {
    p < |pat| && ClassEnd(pat, p) == Some(ep)
  }

  predicate InClass(c: char, pat: Str, p: nat, ep: nat)
    requires ClassOk(pat, p, ep)
  {
    if pat[p] == '.' then true
    else if pat[p] == '%' then MatchClass(c, pat[p + 1])
    else if pat[p] == '[' then InBracket(c, pat, p, ep - 1)
    else pat[p] == c
  }

  /** Classes in items are classes of the pattern. */
  predicate ItemOk(pat: Str, item: Item) {
    match item
    case Single(p, ep, _) => ClassOk(pat, p, ep)
    case Frontier(p, ep) => ClassOk(pat, p, ep) && pat[p] == '['
    case _ => true
  }

  lemma TokenOk(pat: Str, p: nat)
    requires p < |pat| && TokenAt(pat, p).Token?
    ensures ItemOk(pat, TokenAt(pat, p).item)
  {
  }

  ghost predicate ItemsOk(pat: Str, items: seq<Item>) {
    forall k: nat :: k < |items| ==> ItemOk(pat, items[k])
  }

  lemma {:induction false} ItemsAreOk(pat: Str, p: nat, st: seq<Status>)
    requires p <= |pat|
    ensures ItemsOk(pat, Items(pat, p, st))
    decreases |pat| - p
  {
    if Usable(pat, p, st) {
      TokenOk(pat, p);
      ItemsAreOk(pat, TokenAt(pat, p).next, NextStatus(TokenAt(pat, p).item, st));
    }
  }
}
