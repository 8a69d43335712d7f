/** First occurrences in texts, including texts of which only a part has arrived. */
module TextSearch {
  const CRLF: string := "\r\n"

  /** `s` stands at position `k` of `w`. */
  predicate At(w: string, k: nat, s: string) { k + |s| <= |w| && w[k..k + |s|] == s }

  function FindFrom(w: string, s: string, k: nat): (pos: nat)
    requires k <= |w|
    ensures k <= pos <= |w| && (pos < |w| ==> At(w, pos, s))
    ensures forall i | k <= i < pos :: !At(w, i, s)
    decreases |w| - k
  {
    if k == |w| || At(w, k, s) then k else FindFrom(w, s, k + 1)
  }

  /** Position of the first `s` in `w`, or the length of `w`. */
  function Find(w: string, s: string): (pos: nat)
    ensures pos <= |w| && (pos < |w| ==> At(w, pos, s))
    ensures forall i | 0 <= i < pos :: !At(w, i, s)
  {
    FindFrom(w, s, 0)
  }

  lemma FindIs(w: string, s: string, pos: nat)
    requires pos <= |w| && (pos < |w| ==> At(w, pos, s)) && forall i | 0 <= i < pos :: !At(w, i, s)
    ensures Find(w, s) == pos
  {
    hide Find, At;
  }

  predicate Contains(w: string, s: string) { Find(w, s) < |w| }

  /** A pattern that cannot overlap itself. */
  predicate Plain(s: string) { s != "" && forall k | 0 < k < |s| :: s[k] != s[0] }

  /** In a text that continues with `s`, a plain pattern is first found where it continues. */
  lemma FindBehind(x: string, s: string, rest: string)
    requires Plain(s) && !Contains(x, s)
    ensures Find(x + s + rest, s) == |x|
  {
    hide Find;
    var t := x + s + rest;
    assert At(t, |x|, s);
    forall k | 0 <= k < |x|
      ensures !At(t, k, s)
    {
      assert !At(x, k, s);
      if k + |s| <= |x| {
        assert t[k..k + |s|] == x[k..k + |s|];
      } else if k + |s| <= |t| {
        assert t[k..k + |s|][|x| - k] == t[|x|] == s[0] != s[|x| - k];
      }
    }
    FindIs(t, s, |x|);
  }

  /** Searching what has arrived of a text finds the place once all of it is there. */
  lemma FindSoFar(w: string, future: string, s: string)
    requires s != "" && Contains(w + future, s)
    ensures var p := Find(w + future, s); Find(w, s) == if p + |s| <= |w| then p else |w|
  {
    hide Find;
    var t := w + future;
    var p := Find(t, s);
    forall k | 0 <= k && k + |s| <= |w|
      ensures At(w, k, s) == At(t, k, s)
    {
      assert w[k..k + |s|] == t[k..k + |s|];
    }
    if p + |s| <= |w| {
      assert forall i | 0 <= i < p :: !At(t, i, s);
      FindIs(w, s, p);
    } else {
      FindIs(w, s, |w|);
    }
  }

  /** Of a text x + s + rest, `w` has arrived.  The end of `x` is found when `s` has arrived,
    and until then all but the last |s| bytes of `w` belong to `x`. */
  lemma FoundInTime(x: string, s: string, rest: string, w: string, future: string)
    requires Plain(s) && !Contains(x, s) && w + future == x + s + rest
    ensures Find(w, s) == if |x| + |s| <= |w| then |x| else |w|
    ensures |x| + |s| <= |w| ==> w[..|x|] == x && w[|x| + |s|..] + future == rest
    ensures |s| <= |w| < |x| + |s| ==>
      w[..|w| - |s|] == x[..|w| - |s|] && w[|w| - |s|..] + future == x[|w| - |s|..] + s + rest
  {
    hide Find;
    var t := w + future;
    FindBehind(x, s, rest);
    FindSoFar(w, future, s);
    if |x| + |s| <= |w| {
      assert w[..|x|] == t[..|x|] && w[|x| + |s|..] + future == t[|x| + |s|..];
    } else if |s| <= |w| {
      var n := |w| - |s|;
      assert w[..n] == t[..n] && w[n..] + future == t[n..];
    }
  }

  lemma ContainsSuffix(x: string, s: string, d: nat)
    requires d <= |x| && !Contains(x, s)
    ensures !Contains(x[d..], s)
  {
    hide Find;
    forall k | 0 <= k < |x[d..]|
      ensures !At(x[d..], k, s)
    {
      assert !At(x, d + k, s);
      if k + |s| <= |x[d..]| {
        assert x[d..][k..k + |s|] == x[d + k..d + k + |s|];
      }
    }
  }
}
