/**
  Whole-word literal term counting: the model of `NGram.get_str_count`, which counts
  the matches of the regular expression `\b` + escape(term) + `\b` found by a
  left-to-right, non-overlapping scan of the text (Python's `re.findall`).

  Because the term is escaped, every character of it is compared literally; the only
  pattern syntax left is the two word-boundary anchors.
*/
module TermCount {

  /** A word character of `\w`, restricted to ASCII: letters, digits and underscore. */
  predicate IsWordChar(c: char) {
    ('a' <= c <= 'z') || ('A' <= c <= 'Z') || ('0' <= c <= '9') || c == '_'
  }

  /** Whether position q holds a word character; a position outside the text does not. */
  predicate IsWordAt(text: string, q: int) {
    0 <= q < |text| && IsWordChar(text[q])
  }

  /** `\b` holds at q when the characters on either side of q differ in being word characters. */
  predicate IsBoundary(text: string, q: int) {
    IsWordAt(text, q - 1) != IsWordAt(text, q)
  }

  /** The term occurs literally at position p. */
  predicate OccursAt(term: string, text: string, p: nat) {
    p + |term| <= |text| && text[p..p + |term|] == term
  }

  /** The anchored pattern matches at p: a literal occurrence with a boundary at both ends. */
  predicate MatchAt(term: string, text: string, p: nat) {
    OccursAt(term, text, p) && IsBoundary(text, p) && IsBoundary(text, p + |term|)
  }

  /**
    How far the scan moves after a match at p: past the match, or one position after
    an empty match (an empty match may not be repeated at the same position).
  */
  function Step(term: string): (n: nat)
    ensures n >= 1 && (|term| > 0 ==> n == |term|)
  {
    if |term| == 0 then 1 else |term|
  }

  /** Match positions are in increasing order and the matches do not overlap. */
  ghost predicate NonOverlapping(term: string, ms: seq<nat>) {
    forall i, j :: 0 <= i < j < |ms| ==> ms[i] + Step(term) <= ms[j]
  }

  /**
    The start positions of the matches a scan beginning at p reports, in order: at each
    position the pattern is tried; on a match the scan resumes after it, otherwise at
    the next position. Positions run up to |text| inclusive, where only an empty match
    can occur.
  */
  function MatchesFrom(term: string, text: string, p: nat): (ms: seq<nat>)
    requires p <= |text| + 1
    ensures forall i :: 0 <= i < |ms| ==> p <= ms[i] && MatchAt(term, text, ms[i])
    ensures NonOverlapping(term, ms)
    decreases |text| + 1 - p
  {
    if p > |text| then []
    else if MatchAt(term, text, p) then [p] + MatchesFrom(term, text, p + Step(term))
    else MatchesFrom(term, text, p + 1)
  }

  /** The matches `re.findall` reports, as start positions. */
  function FindAll(term: string, text: string): seq<nat> {
    MatchesFrom(term, text, 0)
  }

  /** Every match lies within the span of a reported match that starts at or before it. */
  ghost predicate Covered(term: string, ms: seq<nat>, q: nat) {
    exists i :: 0 <= i < |ms| && ms[i] <= q < ms[i] + Step(term)
  }

  /** A match covered by the rest of the reported list stays covered with one more in front. */
  lemma CoveredCons(term: string, p: nat, rest: seq<nat>, q: nat)
    requires Covered(term, rest, q) || p <= q < p + Step(term)
    ensures Covered(term, [p] + rest, q)
  {
    var ms := [p] + rest;
    if p <= q < p + Step(term) {
      assert ms[0] == p;
    } else {
      var i :| 0 <= i < |rest| && rest[i] <= q < rest[i] + Step(term);
      assert ms[i + 1] == rest[i];
    }
  }

  /** Every match the scan does not report lies strictly inside an earlier reported match. */
  lemma {:induction false} MatchesFromComplete(term: string, text: string, p: nat, q: nat)
    requires p <= q <= |text| && MatchAt(term, text, q)
    ensures Covered(term, MatchesFrom(term, text, p), q)
    decreases |text| + 1 - p
  {
    if MatchAt(term, text, p) {
      if q >= p + Step(term) {
        MatchesFromComplete(term, text, p + Step(term), q);
      }
      CoveredCons(term, p, MatchesFrom(term, text, p + Step(term)), q);
    } else {
      MatchesFromComplete(term, text, p + 1, q);
    }
  }

  /** A scan from p finds at most one match per |term| characters of the rest of the text. */
  lemma {:induction false} MatchesFromBound(term: string, text: string, p: nat)
    requires |term| > 0 && p <= |text| + 1
    ensures var k := |MatchesFrom(term, text, p)|; k == 0 || k * |term| <= |text| - p
    decreases |text| + 1 - p
  {
    var n := |term|;
    if p > |text| {
    } else if MatchAt(term, text, p) {
      var k := |MatchesFrom(term, text, p + n)|;
      MatchesFromBound(term, text, p + n);
      assert |MatchesFrom(term, text, p)| == k + 1;
      MulSucc(k, n);
      assert k == 0 || k * n <= |text| - p - n;
    } else {
      MatchesFromBound(term, text, p + 1);
    }
  }

  lemma MulSucc(k: nat, n: nat)
    ensures (k + 1) * n == k * n + n
  {
  }

  /** With an empty term a scan from p reports at most one match per remaining position. */
  lemma {:induction false} EmptyTermBound(text: string, p: nat)
    requires p <= |text| + 1
    ensures |MatchesFrom("", text, p)| <= |text| + 1 - p
    decreases |text| + 1 - p
  {
    if p <= |text| {
      EmptyTermBound(text, p + 1);
    }
  }

  /**
    `get_str_count`: the number of matches of the whole-word pattern. For a non-empty
    term the matches do not overlap, so they fit in the text; an empty term matches (as
    an empty string) at most once per position.
  */
  function GetStrCount(word: string, text: string): (r: nat)
    ensures |word| > 0 ==> r * |word| <= |text|
    ensures r <= |text| + 1
  {
    if |word| > 0 then
      MatchesFromBound(word, text, 0);
      assert |FindAll(word, text)| <= |FindAll(word, text)| * |word|;
      |FindAll(word, text)|
    else
      EmptyTermBound(text, 0);
      |FindAll(word, text)|
  }

  /**
    The counting semantics in one place: the count is the length of a list of match
    positions that are genuine whole-word literal occurrences, in increasing order and
    non-overlapping, and that leave out no occurrence except those lying inside an
    earlier reported one (leftmost-first).
  */
  lemma CountIsLeftmostNonOverlapping(term: string, text: string)
    ensures var ms := FindAll(term, text);
      && GetStrCount(term, text) == |ms|
      && (forall i :: 0 <= i < |ms| ==> MatchAt(term, text, ms[i]))
      && NonOverlapping(term, ms)
      && (forall q: nat :: q <= |text| && MatchAt(term, text, q) ==> Covered(term, ms, q))
  {
    forall q: nat | q <= |text| && MatchAt(term, text, q)
      ensures Covered(term, FindAll(term, text), q)
    {
      MatchesFromComplete(term, text, 0, q);
    }
  }

  /** If the pattern matches nowhere, the count is zero; and conversely. */
  lemma NoMatchIffZero(term: string, text: string)
    ensures GetStrCount(term, text) == 0 <==>
      forall q :: 0 <= q <= |text| ==> !MatchAt(term, text, q)
  {
    var ms := FindAll(term, text);
    if GetStrCount(term, text) == 0 {
      forall q | 0 <= q <= |text| ensures !MatchAt(term, text, q) {
        if MatchAt(term, text, q) {
          MatchesFromComplete(term, text, 0, q);
        }
      }
    } else {
      assert MatchAt(term, text, ms[0]) && ms[0] <= |text|;
    }
  }

  /**
    Whole-word only: an occurrence whose first character is a word character and which
    is preceded by a word character (or, symmetrically, followed by one after a word
    character) is not a match.
  */
  lemma GluedOccurrenceIsNoMatch(term: string, text: string, p: nat)
    requires OccursAt(term, text, p) && |term| > 0
    requires (p > 0 && IsWordChar(text[p - 1]) && IsWordChar(term[0]))
          || (p + |term| < |text| && IsWordChar(text[p + |term|]) && IsWordChar(term[|term| - 1]))
    ensures !MatchAt(term, text, p)
    ensures p !in FindAll(term, text)
  {
    assert text[p] == term[0];
    assert text[p + |term| - 1] == term[|term| - 1];
  }

  /**
    A term that ends in a non-word character (say "c++") only matches when a word
    character follows it, because `\b` then needs a word character on its right.
  */
  lemma NonWordEndNeedsWordAfter(term: string, text: string, p: nat)
    requires |term| > 0 && !IsWordChar(term[|term| - 1]) && MatchAt(term, text, p)
    ensures p + |term| < |text| && IsWordChar(text[p + |term|])
  {
    assert text[p + |term| - 1] == term[|term| - 1];
  }

  /** "apple" is not counted inside "pineapple". */
  lemma PineappleHasNoApple()
    ensures GetStrCount("apple", "pineapple") == 0
  {
    var term, text := "apple", "pineapple";
    forall q | 0 <= q <= |text| ensures !MatchAt(term, text, q) {
      if q < 4 {
      } else if q == 4 {
        assert IsWordAt(text, 3) && IsWordAt(text, 4);
      }
    }
    NoMatchIffZero(term, text);
  }

  /** Literal matching: the escaped "." matches only a dot, not an arbitrary character. */
  lemma DotIsLiteral()
    ensures GetStrCount("a.b", "axb") == 0
    ensures MatchAt("a.b", "a.b", 0)
  {
    var term, text := "a.b", "axb";
    forall q | 0 <= q <= |text| ensures !MatchAt(term, text, q) {
      if q == 0 {
        assert text[1] != term[1];
      }
    }
    NoMatchIffZero(term, text);
    assert "a.b"[0..3] == "a.b";
  }

  /** With an empty term each word boundary yields an empty match: "a" gives two. */
  lemma EmptyTermCountsBoundaries()
    ensures GetStrCount("", "a") == 2
  {
    assert MatchAt("", "a", 0) && MatchAt("", "a", 1);
    assert MatchesFrom("", "a", 2) == [];
    assert MatchesFrom("", "a", 1) == [1];
  }
}
