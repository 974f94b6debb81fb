/** The case-insensitive substring test behind the `destination__icontains`
    lookups, with ASCII lower-casing standing in for the database collation. */
module Text {

  /** ASCII lower-casing of one character; every other character is kept. */
  function LowerChar(c: char): char
  {
    if 'A' <= c <= 'Z' then (c as int + 32) as char else c
  }

  function Lower(s: string): string
  {
    seq(|s|, i requires 0 <= i < |s| => LowerChar(s[i]))
  }

  predicate IsPrefix(p: string, s: string)
  {
    |p| <= |s| && s[..|p|] == p
  }

  /** `sub` occurs somewhere in `s` (every string contains the empty one). */
  predicate Contains(s: string, sub: string)
    decreases |s|
  {
    IsPrefix(sub, s) || (s != [] && Contains(s[1..], sub))
  }

  /** `s icontains sub`. */
  predicate IContains(s: string, sub: string)
  {
    Contains(Lower(s), Lower(sub))
  }

  /** An occurrence at position `i` is found by `Contains`. */
  lemma {:induction false} ContainsAt(s: string, sub: string, i: nat)
    requires i + |sub| <= |s| && s[i..i + |sub|] == sub
    ensures Contains(s, sub)
    decreases i
  {
    if i == 0 {
      assert IsPrefix(sub, s);
    } else {
      assert s[1..][i - 1..i - 1 + |sub|] == s[i..i + |sub|];
      ContainsAt(s[1..], sub, i - 1);
    }
  }

  /** Conversely, `Contains` only holds where there is an occurrence. */
  lemma {:induction false} ContainsWitness(s: string, sub: string) returns (i: nat)
    requires Contains(s, sub)
    ensures i + |sub| <= |s| && s[i..i + |sub|] == sub
    decreases |s|
  {
    if IsPrefix(sub, s) {
      i := 0;
    } else {
      var j := ContainsWitness(s[1..], sub);
      assert s[1..][j..j + |sub|] == s[j + 1..j + 1 + |sub|];
      i := j + 1;
    }
  }

  /** Every exact occurrence is also a case-insensitive one. */
  lemma ExactMatchIsIContains(s: string, sub: string)
    requires Contains(s, sub)
    ensures IContains(s, sub)
  {
    var i := ContainsWitness(s, sub);
    assert Lower(s)[i..i + |sub|] == Lower(sub);
    ContainsAt(Lower(s), Lower(sub), i);
  }

  /** The test does not depend on the case of either argument. */
  lemma IContainsIgnoresCase(s: string, sub: string)
    ensures IContains(Lower(s), sub) == IContains(s, sub)
    ensures IContains(s, Lower(sub)) == IContains(s, sub)
  {
    assert Lower(Lower(s)) == Lower(s);
    assert Lower(Lower(sub)) == Lower(sub);
  }
}
