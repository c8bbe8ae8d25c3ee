/** String predicates the bot relies on: Python's `sub in s`, `s.startswith` and `s.endswith`. */
module Text {

  /** `sub` occurs in `s` as a contiguous block (Python's `sub in s`). */
  predicate Contains(s: string, sub: string)
    decreases |s|
  {
    if |s| < |sub| then false
    else s[..|sub|] == sub || Contains(s[1..], sub)
  }

  predicate StartsWith(s: string, prefix: string)
  {
    |prefix| <= |s| && s[..|prefix|] == prefix
  }

  predicate EndsWith(s: string, suffix: string)
  {
    |suffix| <= |s| && s[|s| - |suffix|..] == suffix
  }

  /** Every string contains itself. */
  lemma {:induction false} ContainsSelf(s: string)
    ensures Contains(s, s)
  {
  }

  /** An occurrence in `t` is still an occurrence once anything is put in front of `t`. */
  lemma {:induction false} ContainsAfterPrefix(prefix: string, t: string, sub: string)
    requires Contains(t, sub)
    ensures Contains(prefix + t, sub)
    decreases |prefix|
  {
    if prefix == [] {
      assert prefix + t == t;
    } else {
      assert (prefix + t)[1..] == prefix[1..] + t;
      ContainsAfterPrefix(prefix[1..], t, sub);
    }
  }

  /** A string ending in `suffix` contains it. */
  lemma {:induction false} SuffixIsContained(s: string, suffix: string)
    ensures Contains(s + suffix, suffix)
  {
    ContainsSelf(suffix);
    ContainsAfterPrefix(s, suffix, suffix);
  }

  /** A string lacking one of the characters of `sub` does not contain `sub`. */
  lemma {:induction false} MissingCharNotContained(s: string, sub: string, k: nat)
    requires k < |sub| && sub[k] !in s
    ensures !Contains(s, sub)
    decreases |s|
  {
    if |s| >= |sub| {
      assert s[..|sub|][k] == s[k];
      assert forall c :: c in s[1..] ==> c in s;
      MissingCharNotContained(s[1..], sub, k);
    }
  }
}
