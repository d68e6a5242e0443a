/** Substring facts about strings, used to state what error texts mention. */
module Text {

  /** `part` occurs in `s` starting at index `k`. */
  predicate OccursAt(s: string, part: string, k: nat) {
    k + |part| <= |s| && s[k..k + |part|] == part
  }

  /** `part` occurs somewhere in `s`. */
  predicate Contains(s: string, part: string) {
    exists k: nat :: k <= |s| && OccursAt(s, part, k)
  }

  lemma ContainsMiddle(a: string, b: string, c: string)
    ensures Contains(a + b + c, b)
  {
    assert (a + b + c)[|a|..|a| + |b|] == b;
    assert OccursAt(a + b + c, b, |a|);
  }

  lemma ContainsSuffix(a: string, b: string)
    ensures Contains(a + b, b)
  {
    assert (a + b)[|a|..|a| + |b|] == b;
    assert OccursAt(a + b, b, |a|);
  }

  lemma ContainsExtendRight(s: string, part: string, t: string)
    requires Contains(s, part)
    ensures Contains(s + t, part)
  {
    var k: nat :| k <= |s| && OccursAt(s, part, k);
    assert (s + t)[k..k + |part|] == s[k..k + |part|];
    assert OccursAt(s + t, part, k);
  }

  lemma ContainsExtendLeft(t: string, s: string, part: string)
    requires Contains(s, part)
    ensures Contains(t + s, part)
  {
    var k: nat :| k <= |s| && OccursAt(s, part, k);
    assert (t + s)[|t| + k..|t| + k + |part|] == s[k..k + |part|];
    assert OccursAt(t + s, part, |t| + k);
  }
}
