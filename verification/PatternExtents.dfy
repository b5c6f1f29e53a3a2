/** What patterns mean character by character: classes by their extents, sets by their parts,
    and what each piece of a pattern's text stands for. */
module PatternExtents {
  import opened Common
  import opened LuaValues
  import opened PatternSyntax
  import opened PatternMatching
  import opened PatternMatcher
  import opened StringFind

  // ----- classes -----

  const DIGITS: set<char> := {'0', '1', '2', '3', '4', '5', '6', '7', '8', '9'}
  const HEX: set<char> := DIGITS + {'a', 'b', 'c', 'd', 'e', 'f', 'A', 'B', 'C', 'D', 'E', 'F'}
  const LOWER: set<char> := {'a', 'b', 'c', 'd', 'e', 'f', 'g', 'h', 'i', 'j', 'k', 'l', 'm', 'n', 'o', 'p', 'q', 'r',
    's', 't', 'u', 'v', 'w', 'x', 'y', 'z'}
  const UPPER: set<char> := {'A', 'B', 'C', 'D', 'E', 'F', 'G', 'H', 'I', 'J', 'K', 'L', 'M', 'N', 'O', 'P', 'Q', 'R',
    'S', 'T', 'U', 'V', 'W', 'X', 'Y', 'Z'}
  const SPACES: set<char> := {' ', '\t', '\n', 11 as char, 12 as char, '\r'}
  const PUNCTUATION: set<char> := {'!', '"', '#', '$', '%', '&', '\'', '(', ')', '*', '+', ',', '-', '.', '/', ':', ';',
    '<', '=', '>', '?', '@', '[', '\\', ']', '^', '_', '`', '{', '|', '}', '~'}

  /** The characters of the class that a letter names. */
  predicate Extent(letter: char, c: char)
    requires letter in "acdglpsuwxz"
  {
    if letter == 'a' then c in LOWER + UPPER
    else if letter == 'c' then (c as int) < 32 || c as int == 127
    else if letter == 'd' then c in DIGITS
    else if letter == 'g' then c in LOWER + UPPER + DIGITS + PUNCTUATION
    else if letter == 'l' then c in LOWER
    else if letter == 'p' then c in PUNCTUATION
    else if letter == 's' then c in SPACES
    else if letter == 'u' then c in UPPER
    else if letter == 'w' then c in LOWER + UPPER + DIGITS
    else if letter == 'x' then c in HEX
    else c as int == 0
  }

  /** The letter in upper case. */
  function Capital(letter: char): char
    requires 'a' <= letter <= 'z'
  {
    (letter as int - 32) as char
  }

  lemma DigitsAre(c: char)
    ensures IsDigit(c) <==> c in DIGITS
    ensures IsXDigit(c) <==> c in HEX
  {
  }

  lemma LettersAre(c: char)
    ensures IsLower(c) <==> c in LOWER
    ensures IsUpper(c) <==> c in UPPER
  {
  }

  lemma OthersAre(c: char)
    ensures IsSpace(c) <==> c in SPACES
    ensures IsGraph(c) && !IsAlnum(c) <==> c in PUNCTUATION
  {
  }

  /** A lower-case letter names its extent, the upper-case letter everything else. */
  lemma ClassMeans(letter: char, c: char)
    requires letter in "acdglpsuwxz"
    ensures MatchClass(c, letter) <==> Extent(letter, c)
    ensures MatchClass(c, Capital(letter)) <==> !Extent(letter, c)
  {
    DigitsAre(c);
    LettersAre(c);
    OthersAre(c);
    hide DIGITS, HEX, LOWER, UPPER, SPACES, PUNCTUATION;
  }

  /** Any other character after `%` stands for itself. */
  lemma EscapeMeans(x: char, c: char)
    requires x !in "acdglpsuwxz" && x !in "ACDGLPSUWXZ"
    ensures MatchClass(c, x) <==> c == x
  {
  }

  lemma SmallIn(x: char)
    requires x in "ACDGLPSUWXZ"
    ensures (x as int + 32) as char in "acdglpsuwxz" && Capital((x as int + 32) as char) == x
  {
  }

  /** What `%x` stands for: the class of its letter, the complement of it, or x itself. */
  predicate Names(x: char, c: char) {
    if x in "acdglpsuwxz" then Extent(x, c)
    else if x in "ACDGLPSUWXZ" then (SmallIn(x); !Extent((x as int + 32) as char, c))
    else c == x
  }

  lemma NamesMean(x: char, c: char)
    ensures MatchClass(c, x) <==> Names(x, c)
  {
    if x in "ACDGLPSUWXZ" { SmallIn(x); }
    hide Extent, MatchClass;
    if x in "acdglpsuwxz" {
      ClassMeans(x, c);
    } else if x in "ACDGLPSUWXZ" {
      ClassMeans((x as int + 32) as char, c);
    } else {
      EscapeMeans(x, c);
    }
  }

  // ----- a class and a subject of one character -----

  /** A pattern that is one class is one item. */
  lemma OneItem(pat: Str)
    requires |pat| > 0 && pat[0] != '^' && TokenAt(pat, 0) == Token(Single(0, |pat|, One), |pat|)
    ensures ItemsOf(pat) == [Single(0, |pat|, One)]
  {
    hide TokenAt;
    var item := Single(0, |pat|, One);
    assert Body(pat) == 0;
    assert Usable(pat, 0, Statuses([]));
    assert Items(pat, |pat|, NextStatus(item, Statuses([]))) == [];
    assert Items(pat, 0, Statuses([])) == [item] + [];
  }

  lemma OneAccepts(pat: Str, c: char, i: nat, j: nat)
    requires ClassOk(pat, 0, |pat|)
    ensures Accepts([c], pat, Single(0, |pat|, One), [], i, j) <==> i == 0 && j == 1 && InClass(c, pat, 0, |pat|)
  {
    hide ClassOk, InClass;
    if i == 0 && j == 1 {
      assert Run([c], pat, 0, |pat|, 0, 1) ==> InClass([c][0], pat, 0, |pat|);
    }
  }

  /** The pattern that is one class: the character matches if it is in the class. */
  lemma OneClass(pat: Str, c: char)
    requires |pat| > 0 && pat[0] != '^' && ClassOk(pat, 0, |pat|)
    requires TokenAt(pat, 0) == Token(Single(0, |pat|, One), |pat|)
    ensures InClass(c, pat, 0, |pat|) ==> Leftmost([c], pat, ItemsOf(pat), 0, false, Match(0, 1, []))
    ensures !InClass(c, pat, 0, |pat|) ==> Leftmost([c], pat, ItemsOf(pat), 0, false, NoneFound)
  {
    OneItem(pat);
    hide ItemsOf, TokenAt, ClassOk, InClass, Matches;
    var items := ItemsOf(pat);
    assert items[1..] == [];
    forall i: nat, j: nat
      ensures Accepts([c], pat, items[0], [], i, j) <==> i == 0 && j == 1 && InClass(c, pat, 0, |pat|)
    {
      OneAccepts(pat, c, i, j);
    }
    if InClass(c, pat, 0, |pat|) {
      NothingLeft([c], pat, [], 1);
      hide IsBest, Accepts;
      Chosen([c], pat, items, [], 0, 1, [1]);
      assert BestCaptures([c], pat, items, 0, 1, [], [0] + [1]);
    } else {
      hide Accepts;
      forall i: nat ensures NoMatch([c], pat, items, [], i) {
        NoneChosen([c], pat, items, [], i);
      }
    }
  }

  lemma LetterFinds(x: char, c: char)
    requires x in "acdglpsuwxz" || x in "ACDGLPSUWXZ"
    ensures var pat := ['%', x];
      Leftmost([c], pat, ItemsOf(pat), 0, false, if MatchClass(c, x) then Match(0, 1, []) else NoneFound)
  {
    var pat := ['%', x];
    assert ClassOk(pat, 0, 2) && TokenAt(pat, 0) == Token(Single(0, 2, One), 2);
    assert InClass(c, pat, 0, 2) == MatchClass(c, x);
    hide MatchClass, Leftmost, ItemsOf, TokenAt, ClassOk, InClass;
    OneClass(pat, c);
  }

  lemma CapitalIn(letter: char)
    requires letter in "acdglpsuwxz"
    ensures Capital(letter) in "ACDGLPSUWXZ"
  {
  }

  /** `%d` and the like, and in upper case: on a subject of one character, the matcher finds
      it exactly if it is in the extent, or is not. */
  lemma ClassFinds(letter: char, c: char)
    requires letter in "acdglpsuwxz"
    ensures var low, up := ['%', letter], ['%', Capital(letter)];
      && Leftmost([c], low, ItemsOf(low), 0, false, if Extent(letter, c) then Match(0, 1, []) else NoneFound)
      && Leftmost([c], up, ItemsOf(up), 0, false, if Extent(letter, c) then NoneFound else Match(0, 1, []))
  {
    ClassMeans(letter, c);
    CapitalIn(letter);
    hide *;
    LetterFinds(letter, c);
    LetterFinds(Capital(letter), c);
  }
}
