/** The few operations of Go's `strings` package the service relies on. */
module Text {

  /** `sub` occurs in `s` starting at index `i`. */
  predicate MatchAt(s: string, sub: string, i: nat) {
    i + |sub| <= |s| && s[i..i + |sub|] == sub
  }

  /** `sub` is a substring of `s`. */
  ghost predicate Occurs(sub: string, s: string) {
    exists i: nat :: MatchAt(s, sub, i)
  }

  /** Dropping a non-matching first character keeps exactly the later occurrences. */
  lemma {:induction false} OccursInTail(s: string, sub: string)
    requires |s| >= 1 && !MatchAt(s, sub, 0)
    ensures Occurs(sub, s) <==> Occurs(sub, s[1..])
  {
    if Occurs(sub, s) {
      var i: nat :| MatchAt(s, sub, i);
      assert i != 0;
      assert s[1..][i - 1..i - 1 + |sub|] == s[i..i + |sub|];
      assert MatchAt(s[1..], sub, i - 1);
    }
    if Occurs(sub, s[1..]) {
      var j: nat :| MatchAt(s[1..], sub, j);
      assert s[1..][j..j + |sub|] == s[j + 1..j + 1 + |sub|];
      assert MatchAt(s, sub, j + 1);
    }
  }

  /** A text built around `sub` contains it. */
  lemma OccursInside(p: string, sub: string, q: string)
    ensures Occurs(sub, p + sub + q)
  {
    assert (p + sub + q)[|p|..|p| + |sub|] == sub;
    assert MatchAt(p + sub + q, sub, |p|);
  }

  /** A text lacking one of the characters of `sub` cannot contain it. */
  lemma NoOccurrenceWithoutChar(s: string, sub: string, k: nat)
    requires k < |sub| && sub[k] !in s
    ensures !Occurs(sub, s)
  {
    forall i: nat
      ensures !MatchAt(s, sub, i)
    {
      if i + |sub| <= |s| {
        assert s[i..i + |sub|][k] == s[i + k];
        assert s[i + k] in s;
      }
    }
  }

  /** A text in which the first two characters of `sub` never stand side by side cannot contain it. */
  lemma NoOccurrenceWithoutPair(s: string, sub: string)
    requires |sub| >= 2
    requires forall j :: 0 <= j < |s| - 1 ==> !(s[j] == sub[0] && s[j + 1] == sub[1])
    ensures !Occurs(sub, s)
  {
    forall i: nat
      ensures !MatchAt(s, sub, i)
    {
      if i + |sub| <= |s| {
        assert s[i..i + |sub|][0] == s[i];
        assert s[i..i + |sub|][1] == s[i + 1];
      }
    }
  }

  /** strings.Contains: a plain, case-sensitive substring test, true exactly when `sub` occurs in `s`. */
  function Contains(s: string, sub: string): (r: bool)
    ensures r <==> Occurs(sub, s)
    decreases |s|
  {
    if |s| < |sub| then
      assert forall i: nat :: !MatchAt(s, sub, i);
      false
    else if s[..|sub|] == sub then
      assert MatchAt(s, sub, 0);
      true
    else
      OccursInTail(s, sub);
      Contains(s[1..], sub)
  }

  /** strings.ReplaceAll(s, string(c), ""): every occurrence of `c` is dropped. */
  function RemoveAll(s: string, c: char): (r: string)
    ensures multiset(r) == multiset(s)[c := 0]
    ensures forall x :: x in r <==> x in s && x != c
  {
    if s == [] then
      []
    else
      assert s == [s[0]] + s[1..];
      (if s[0] == c then [] else [s[0]]) + RemoveAll(s[1..], c)
  }

  /** The character class `[A-Za-z0-9]`. */
  predicate IsAsciiAlnum(c: char) {
    ('A' <= c <= 'Z') || ('a' <= c <= 'z') || ('0' <= c <= '9')
  }
}
