/** Subsequences, by the positions that spell them. */
module Subsequences {

  /** `f` names the positions of `t` that spell `s`, from left to right. */
  ghost predicate Embeds<T>(s: seq<T>, t: seq<T>, f: seq<nat>) {
    && |f| == |s|
    && (forall i, j :: 0 <= i < j < |f| ==> f[i] < f[j])
    && (forall i :: 0 <= i < |f| ==> f[i] < |t| && t[f[i]] == s[i])
  }

  ghost predicate IsSubsequence<T>(s: seq<T>, t: seq<T>) {
    exists f :: Embeds(s, t, f)
  }

  /** One more element at the end of `t`, which `s` takes or leaves. */
  lemma OneMore<T>(s: seq<T>, t: seq<T>, x: T)
    requires IsSubsequence(s, t)
    ensures IsSubsequence(s, t + [x]) && IsSubsequence(s + [x], t + [x])
  {
    var f: seq<nat> :| Embeds(s, t, f);
    assert Embeds(s, t + [x], f);
    assert Embeds(s + [x], t + [x], f + [|t|]);
  }
}
