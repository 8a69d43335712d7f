/** Byte ranges of a request: checking, bringing to one form, and joining neighbours (RFC 9110,
  section 14.1.2).
 */
module RangeCoalescing {
  /** First and last byte position; -1 is absent. */
  datatype Range = Range(first: int, last: int)

  const RANGE_MAX_COUNT: nat := 1024

  /** A range as a request states it: -1 for what is absent. */
  predicate Stated(r: Range) { r.first >= -1 && r.last >= -1 }

  ghost predicate AllStated(s: seq<Range>) { forall i | 0 <= i < |s| :: Stated(s[i]) }

  /** Does the range, as the request states it, ask for byte `b` of `len`? */
  predicate Wanted(r: Range, len: nat, b: int) {
    && 0 <= b < len
    && (if r.first == -1 then (r.last == -1 || len - r.last <= b)
        else r.first <= b && (r.last == -1 || b <= r.last))
  }

  predicate Within(r: Range, len: nat) { 0 <= r.first <= r.last < len }

  predicate Has(r: Range, b: int) { r.first <= b <= r.last }

  ghost predicate Covered(ranges: seq<Range>, b: int) { exists i | 0 <= i < |ranges| :: Has(ranges[i], b) }

  /** The range as positions of the content. */
  function Normal(r: Range, len: nat): Range {
    var all := r.first == -1 && r.last == -1;
    var a := if all then 0 else r.first;
    var z := if all then len else r.last;
    var a1 := if a == -1 then len - z else a;
    var z1 := if a == -1 then len - 1 else z;
    Range(a1, if z1 == -1 || z1 >= len then len - 1 else z1)
  }

  /** What a range asks for is what its normal form has. */
  lemma NormalHas(r: Range, len: nat, b: int)
    requires Stated(r) && Within(Normal(r, len), len)
    ensures Has(Normal(r, len), b) <==> Wanted(r, len, b)
  {
  }

  ghost predicate Sorted(s: seq<Range>) { forall i, j | 0 <= i < j < |s| :: s[i].first <= s[j].first }

  ghost predicate AllWithin(s: seq<Range>, len: nat) { forall i | 0 <= i < |s| :: Within(s[i], len) }

  /** No range occurs twice. */
  ghost predicate Distinct(s: seq<Range>) { forall r :: multiset(s)[r] <= 1 }

  lemma NotTwice(s: seq<Range>, i: nat, j: nat)
    requires Distinct(s) && i < j < |s|
    ensures s[i] != s[j]
  {
    assert s == s[..i] + [s[i]] + s[i + 1..j] + [s[j]] + s[j + 1..];
    assert s[i] == s[j] ==> multiset(s)[s[i]] >= 2;
  }

  /** Neighbours leave at least one byte between them. */
  ghost predicate Apart(s: seq<Range>) { forall i | 0 < i < |s| :: s[i - 1].last + 1 < s[i].first }

  /** One round of the loop, for the range `r` in its normal form. */
  function Join(out: seq<Range>, r: Range, len: nat): seq<Range> {
    if !Within(r, len) then out
    else if out == [] then [r]
    else
      var prev := out[|out| - 1];
      if r.first <= prev.last + 1 && r != prev
      then out[|out| - 1 := prev.(last := if prev.last < r.last then r.last else prev.last)]
      else out + [r]
  }

  /** The loop over the first `n` ranges. */
  function Joined(s: seq<Range>, n: nat, len: nat): seq<Range>
    requires n <= |s|
  {
    if n == 0 then [] else Join(Joined(s, n - 1, len), Normal(s[n - 1], len), len)
  }

  /** What holds of the result for sorted ranges in normal form. */
  ghost predicate JoinInv(s: seq<Range>, n: nat, len: nat, out: seq<Range>)
    requires n <= |s|
  {
    && AllWithin(out, len) && (n > 0 ==> out != [])
    && (forall b: int :: Covered(out, b) <==> Covered(s[..n], b))
    && (out != [] ==> var z := out[|out| - 1];
          && (forall k | n <= k < |s| :: z.first <= s[k].first)
          && exists k | 0 <= k < n :: s[k].last == z.last && z.first <= s[k].first)
    && (Distinct(s) ==> Apart(out))
  }

  lemma NormalIsFixed(r: Range, len: nat)
    requires Within(r, len)
    ensures Normal(r, len) == r
  {
  }

  /** A range that touches the last one is joined to it: the covered bytes are those of both. */
  lemma CoveredJoin(out: seq<Range>, r: Range, len: nat, b: int)
    requires AllWithin(out, len) && Within(r, len)
    requires out != [] ==> out[|out| - 1].first <= r.first
    ensures Covered(Join(out, r, len), b) <==> Covered(out, b) || Has(r, b)
  {
    var q := Join(out, r, len);
    var k := |q| - 1;
    assert q != [] && forall i | 0 <= i < |out| - 1 :: q[i] == out[i];
    if |q| == |out| {
      assert Has(q[k], b) <==> Has(out[k], b) || Has(r, b);
      if Covered(out, b) {
        var i :| 0 <= i < |out| && Has(out[i], b);
        assert Has(q[i], b);
      }
    } else {
      assert q[k] == r && forall i | 0 <= i < |out| :: q[i] == out[i];
      if Covered(out, b) {
        var i :| 0 <= i < |out| && Has(out[i], b);
        assert Has(q[i], b);
      }
    }
    if Has(r, b) {
      assert Has(q[k], b);
    }
  }

  lemma CoveredPush(s: seq<Range>, n: nat, b: int)
    requires n < |s|
    ensures Covered(s[..n + 1], b) <==> Covered(s[..n], b) || Has(s[n], b)
  {
    if Covered(s[..n], b) {
      var i :| 0 <= i < n && Has(s[..n][i], b);
      assert Has(s[..n + 1][i], b);
    }
    if Has(s[n], b) {
      assert Has(s[..n + 1][n], b);
    }
  }

  lemma JoinKeeps(s: seq<Range>, n: nat, len: nat, out: seq<Range>)
    requires n < |s| && Sorted(s) && AllWithin(s, len) && JoinInv(s, n, len, out)
    ensures JoinInv(s, n + 1, len, Join(out, s[n], len))
  {
    hide Covered;
    var r, q := s[n], Join(out, s[n], len);
    forall b: int
      ensures Covered(q, b) <==> Covered(s[..n + 1], b)
    {
      CoveredJoin(out, r, len, b);
      CoveredPush(s, n, b);
    }
    if out != [] {
      var z := out[|out| - 1];
      var k :| 0 <= k < n && s[k].last == z.last && z.first <= s[k].first;
      assert s[k].first <= r.first;
      if Distinct(s) {
        NotTwice(s, k, n);
      }
      assert r == z ==> s[k] == r;
      if |q| == |out| && z.last < r.last {
        assert s[n].last == q[|q| - 1].last;
      } else if |q| == |out| {
        assert s[k].last == q[|q| - 1].last;
      }
    }
  }

  /** For sorted ranges in normal form: the same bytes are covered, within bounds; and if no two
    ranges are the same, the result is in order with a gap between neighbours. */
  lemma {:induction false} JoinedIsRight(s: seq<Range>, n: nat, len: nat)
    requires n <= |s| && Sorted(s) && AllWithin(s, len)
    ensures JoinInv(s, n, len, Joined(s, n, len))
  {
    hide Join, JoinInv;
    if n == 0 {
      NothingJoined(s, len);
    } else {
      JoinedIsRight(s, n - 1, len);
      NormalIsFixed(s[n - 1], len);
      JoinKeeps(s, n - 1, len, Joined(s, n - 1, len));
    }
  }

  lemma NothingJoined(s: seq<Range>, len: nat)
    ensures JoinInv(s, 0, len, [])
  {
  }

  // ----------------------------------------------- ranges as requests state them

  /** The normal forms that lie within the content; the loop skips the others. */
  function Valids(s: seq<Range>, len: nat): (v: seq<Range>)
    ensures |v| <= |s|
  {
    if s == [] then []
    else
      var r := Normal(s[|s| - 1], len);
      Valids(s[..|s| - 1], len) + (if Within(r, len) then [r] else [])
  }

  lemma {:induction false} JoinedValids(s: seq<Range>, n: nat, len: nat)
    requires n <= |s|
    ensures AllWithin(Valids(s[..n], len), len)
    ensures Joined(s, n, len) == Joined(Valids(s[..n], len), |Valids(s[..n], len)|, len)
  {
    hide Join, Normal;
    if n > 0 {
      JoinedValids(s, n - 1, len);
      assert s[..n][..n - 1] == s[..n - 1];
      var r, before := Normal(s[n - 1], len), Valids(s[..n - 1], len);
      if Within(r, len) {
        NormalIsFixed(r, len);
        JoinedPrefix(before, [r], |before|, len);
      } else {
        JoinSkips(Joined(s, n - 1, len), r, len);
        assert Valids(s[..n], len) == before + [] == before;
      }
    }
  }

  lemma JoinSkips(out: seq<Range>, r: Range, len: nat)
    requires !Within(r, len)
    ensures Join(out, r, len) == out
  {
  }

  lemma {:induction false} JoinedPrefix(s: seq<Range>, more: seq<Range>, n: nat, len: nat)
    requires n <= |s|
    ensures Joined(s + more, n, len) == Joined(s, n, len)
  {
    hide Join, Normal;
    if n > 0 {
      JoinedPrefix(s, more, n - 1, len);
    }
  }

  /** Behind a range that reaches the end of the content everything is swallowed. */
  lemma {:induction false} EndSwallows(v: seq<Range>, n: nat, len: nat)
    requires 0 < n <= |v| && AllWithin(v, len) && v[0].last == len - 1
    ensures var out := Joined(v, n, len); out != [] && forall i | 0 <= i < |out| :: out[i] == v[0]
  {
    NormalIsFixed(v[n - 1], len);
    if n > 1 {
      EndSwallows(v, n - 1, len);
    } else {
      assert Joined(v, 0, len) == [];
    }
  }

  /** Of the valid ranges in sorted order, none begins before the first. */
  ghost predicate FirstIsLowest(v: seq<Range>) { forall k | 0 <= k < |v| :: v[0].first <= v[k].first }

  ghost predicate SameBytes(s: seq<Range>, t: seq<Range>) { forall b: int :: Covered(s, b) <==> Covered(t, b) }

  lemma SwallowedIff(v: seq<Range>, len: nat)
    requires v != [] && AllWithin(v, len) && v[0].last == len - 1
    ensures SameBytes(Joined(v, |v|, len), v) <==> FirstIsLowest(v)
  {
    var out := Joined(v, |v|, len);
    EndSwallows(v, |v|, len);
    assert forall b: int :: Covered(out, b) <==> Has(v[0], b) by {
      assert forall b: int :: Has(out[0], b) ==> Covered(out, b);
    }
    if FirstIsLowest(v) {
      assert forall b: int :: Has(v[0], b) ==> Covered(v, b);
    } else {
      var k :| 0 <= k < |v| && v[k].first < v[0].first;
      assert Has(v[k], v[k].first) && Covered(v, v[k].first) && !Covered(out, v[k].first);
    }
  }

  /** The shape of the valid ranges when the stated ones are sorted: ranges without a first
    position come before the others, and reach the end. */
  lemma NormalShape(r: Range, len: nat)
    requires Stated(r) && Within(Normal(r, len), len)
    ensures Normal(r, len).first >= 0
    ensures r.first >= 0 ==> Normal(r, len).first == r.first
    ensures r.first == -1 ==> Normal(r, len).last == len - 1
  {
  }

  lemma {:induction false} ValidsShape(s: seq<Range>, len: nat)
    requires Sorted(s) && AllStated(s)
    ensures var v := Valids(s, len);
            && (forall k | 0 <= k < |v| :: v[k].first >= 0)
            && (v != [] ==> v[0].last == len - 1 || Sorted(v))
            && (v != [] && s[|s| - 1].first >= 0 ==>
                  v[0].last == len - 1 || forall k | 0 <= k < |v| :: v[k].first <= s[|s| - 1].first)
            && (v != [] && s[|s| - 1].first == -1 ==> v[0].last == len - 1)
  {
    hide Normal, Within;
    if s != [] {
      var front := s[..|s| - 1];
      if Within(Normal(s[|s| - 1], len), len) {
        NormalShape(s[|s| - 1], len);
      }
      ValidsShape(front, len);
      if front != [] {
        assert front[|front| - 1].first <= s[|s| - 1].first;
      }
    }
  }

  /** Main result: for ranges as requests may state them, in sorted order, the loop keeps the
    bytes of the valid ones if and only if none of these begins before the first. */
  lemma JoinedIff(s: seq<Range>, len: nat)
    requires Sorted(s) && AllStated(s)
    ensures AllWithin(Joined(s, |s|, len), len)
    ensures SameBytes(Joined(s, |s|, len), Valids(s, len)) <==> FirstIsLowest(Valids(s, len))
  {
    hide Covered, Join, Normal;
    var v := Valids(s, len);
    assert s[..|s|] == s;
    JoinedValids(s, |s|, len);
    ValidsShape(s, len);
    if v == [] {
    } else if v[0].last == len - 1 {
      EndSwallows(v, |v|, len);
      SwallowedIff(v, len);
    } else {
      JoinedIsRight(v, |v|, len);
      assert v[..|v|] == v;
    }
  }

  // ------------------------------------------------------------- the operations

  /** Insert a range behind those that do not start later. */
  function Insert(s: seq<Range>, r: Range): seq<Range> {
    if s == [] then [r]
    else
      var last := s[|s| - 1];
      if last.first <= r.first then s + [r] else Insert(s[..|s| - 1], r) + [last]
  }

  lemma {:induction false} InsertKeepsAll(s: seq<Range>, r: Range)
    ensures multiset(Insert(s, r)) == multiset(s) + multiset{r}
  {
    if s != [] {
      InsertKeepsAll(s[..|s| - 1], r);
      assert s == s[..|s| - 1] + [s[|s| - 1]];
    }
  }

  lemma {:induction false} InsertSorts(s: seq<Range>, r: Range)
    requires Sorted(s)
    ensures Sorted(Insert(s, r)) && forall i | 0 <= i < |Insert(s, r)| :: Insert(s, r)[i] in s || Insert(s, r)[i] == r
  {
    if s != [] && s[|s| - 1].first > r.first {
      InsertSorts(s[..|s| - 1], r);
    }
  }

  method SortByFirst(ranges: seq<Range>) returns (s: seq<Range>)
    ensures Sorted(s) && multiset(s) == multiset(ranges)
  {
    s := [];
    for i := 0 to |ranges|
      invariant Sorted(s) && multiset(s) == multiset(ranges[..i])
    {
      assert ranges[..i + 1] == ranges[..i] + [ranges[i]];
      InsertKeepsAll(s, ranges[i]);
      InsertSorts(s, ranges[i]);
      s := Insert(s, ranges[i]);
    }
    assert ranges[..|ranges|] == ranges;
  }

  lemma SameCover(s: seq<Range>, t: seq<Range>)
    requires multiset(s) == multiset(t)
    ensures forall b: int :: Covered(s, b) <==> Covered(t, b)
  {
    forall b: int
      ensures Covered(s, b) <==> Covered(t, b)
    {
      if Covered(s, b) { CoverMoves(s, t, b); }
      if Covered(t, b) { CoverMoves(t, s, b); }
    }
  }

  lemma CoverMoves(s: seq<Range>, t: seq<Range>, b: int)
    requires multiset(s) == multiset(t) && Covered(s, b)
    ensures Covered(t, b)
  {
    var i :| 0 <= i < |s| && Has(s[i], b);
    assert s[i] in multiset(t);
    var j :| 0 <= j < |t| && t[j] == s[i];
    assert Has(t[j], b);
  }

  lemma SameWithin(s: seq<Range>, t: seq<Range>, len: nat)
    requires multiset(s) == multiset(t) && AllWithin(t, len)
    ensures AllWithin(s, len)
  {
    forall i | 0 <= i < |s|
      ensures Within(s[i], len)
    {
      assert s[i] in multiset(t);
      var j :| 0 <= j < |t| && t[j] == s[i];
    }
  }

  /** What a request may expect of its ranges once they have been joined. */
  ghost predicate Right(ranges: seq<Range>, out: seq<Range>, len: nat) {
    && AllWithin(out, len) && (forall b: int :: Covered(out, b) <==> Covered(ranges, b))
    && (Distinct(ranges) ==> Apart(out))
  }

  /** `coalesce_ranges`: one range is left as it is; for more, the valid ones keep their bytes
    exactly if none begins before the first of the sorted order, and ranges in normal form
    always do. */
  method CoalesceRanges(ranges: seq<Range>, len: nat) returns (out: seq<Range>, ghost s: seq<Range>)
    requires AllStated(ranges)
    ensures Sorted(s) && multiset(s) == multiset(ranges)
    ensures |ranges| <= 1 ==> out == ranges
    ensures |ranges| > 1 ==> AllWithin(out, len) && (SameBytes(out, Valids(s, len)) <==> FirstIsLowest(Valids(s, len)))
    ensures AllWithin(ranges, len) ==> Right(ranges, out, len)
  {
    hide Covered, Join, Distinct, Normal, Valids, FirstIsLowest, SameBytes;
    if |ranges| <= 1 {
      return ranges, ranges;
    }
    var sorted := SortByFirst(ranges);
    s := sorted;
    out := [];
    for i := 0 to |sorted|
      invariant out == Joined(s, i, len)
    {
      out := Join(out, Normal(sorted[i], len), len);
    }
    SameStated(s, ranges);
    JoinedIff(s, len);
    if AllWithin(ranges, len) {
      SameCover(s, ranges);
      SameWithin(s, ranges, len);
      SameDistinct(s, ranges);
      JoinedIsRight(s, |s|, len);
      assert s[..|s|] == s;
    }
  }

  lemma SameStated(s: seq<Range>, t: seq<Range>)
    requires multiset(s) == multiset(t) && AllStated(t)
    ensures AllStated(s)
  {
    forall i | 0 <= i < |s|
      ensures Stated(s[i])
    {
      assert s[i] in multiset(t);
      var j :| 0 <= j < |t| && t[j] == s[i];
    }
  }

  lemma SameDistinct(s: seq<Range>, t: seq<Range>)
    requires multiset(s) == multiset(t)
    ensures Distinct(s) <==> Distinct(t)
  {
  }

  /** Earlier ranges that overlap `r`. */
  predicate Overlaps(processed: seq<Range>, r: Range) {
    exists i | 0 <= i < |processed| :: !(r.last < processed[i].first || r.first > processed[i].last)
  }

  /** How many of the first `n` ranges overlap an earlier one. */
  function Overlapping(s: seq<Range>, n: nat): nat
    requires n <= |s|
  {
    if n == 0 then 0 else Overlapping(s, n - 1) + (if Overlaps(s[..n - 1], s[n - 1]) then 1 else 0)
  }

  function Normals(ranges: seq<Range>, len: nat): (s: seq<Range>)
    ensures |s| == |ranges|
  {
    seq(|ranges|, i requires 0 <= i < |ranges| => Normal(ranges[i], len))
  }

  /** The ranges of a request are refused when there are too many, when one lies outside the
    content, or when more than two of them overlap an earlier one. */
  ghost predicate Refused(ranges: seq<Range>, len: nat) {
    || |ranges| > RANGE_MAX_COUNT
    || !AllWithin(Normals(ranges, len), len)
    || Overlapping(Normals(ranges, len), |ranges|) > 2
  }

  /** Range `i` shares a byte with an earlier one. */
  ghost predicate Meets(s: seq<Range>, i: nat) {
    i < |s| && exists e: nat, b: int | e < i :: Has(s[e], b) && Has(s[i], b)
  }

  lemma OverlapsIff(s: seq<Range>, i: nat)
    requires i < |s| && forall k | 0 <= k < |s| :: s[k].first <= s[k].last
    ensures Overlaps(s[..i], s[i]) <==> Meets(s, i)
  {
    if Overlaps(s[..i], s[i]) {
      var e: nat :| e < i && !(s[i].last < s[e].first || s[i].first > s[e].last);
      var b := if s[e].first < s[i].first then s[i].first else s[e].first;
      assert Has(s[e], b) && Has(s[i], b);
    }
    if Meets(s, i) {
      var e: nat, b: int :| e < i && Has(s[e], b) && Has(s[i], b);
      assert s[..i][e] == s[e];
    }
  }

  /** The refusal counts the ranges that share a byte with an earlier one. */
  lemma {:induction false} OverlappingCounts(s: seq<Range>, n: nat)
    requires n <= |s| && forall k | 0 <= k < |s| :: s[k].first <= s[k].last
    ensures Overlapping(s, n) == |set i: nat | i < n && Meets(s, i)|
  {
    hide Meets, Overlaps;
    if n > 0 {
      OverlappingCounts(s, n - 1);
      OverlapsIff(s, n - 1);
      var before := set i: nat | i < n - 1 && Meets(s, i);
      assert (set i: nat | i < n && Meets(s, i)) == if Meets(s, n - 1) then before + {n - 1} else before;
    } else {
      assert (set i: nat | i < n && Meets(s, i)) == {};
    }
  }

  class Request {
    var ranges: seq<Range>

    /** The loop of `range_error`: ranges take their normal form one by one, until one is out
      of bounds or one too many overlaps. */
    method Normalize(len: nat) returns (bad: bool)
      requires |ranges| <= RANGE_MAX_COUNT
      modifies this
      ensures bad == Refused(old(ranges), len)
      ensures !bad ==> ranges == Normals(old(ranges), len)
    {
      hide Overlaps, Normal;
      ghost var normals := Normals(ranges, len);
      var count := 0;
      for i := 0 to |ranges|
        invariant |ranges| == |normals| == |old(ranges)|
        invariant ranges[..i] == normals[..i] && ranges[i..] == old(ranges)[i..]
        invariant forall k | 0 <= k < i :: Within(normals[k], len)
        invariant count == Overlapping(normals, i) && count <= 2
      {
        assert ranges[i] == ranges[i..][0] && normals[i] == Normal(old(ranges)[i], len);
        var r := Normal(ranges[i], len);
        ranges := ranges[i := r];
        assert ranges[..i + 1] == normals[..i] + [r] == normals[..i + 1] && ranges[i + 1..] == old(ranges)[i..][1..];
        if !Within(r, len) {
          return true;
        }
        assert ranges[..i] == normals[..i];
        if Overlaps(ranges[..i], r) {
          count := count + 1;
          if count > 2 {
            MoreOverlap(normals, i + 1, |normals|);
            return true;
          }
        }
      }
      assert ranges[..|ranges|] == ranges && normals[..|normals|] == normals;
      bad := false;
    }

    /** `range_error`: refused ranges are reported; accepted ones are replaced by others that
      cover exactly the bytes asked for, within the content, and with gaps between them when
      no two ask for the same bytes. */
    method RangeError(status: int, len: nat) returns (error: bool)
      requires AllStated(ranges)
      modifies this
      ensures var applies := old(ranges) != [] && 200 <= status < 300;
        && error == (applies && Refused(old(ranges), len))
        && (!applies ==> ranges == old(ranges))
        && (applies && !error ==> Answers(old(ranges), ranges, len))
    {
      hide Refused, Normals, Right;
      if ranges == [] || !(200 <= status < 300) {
        return false;
      }
      if |ranges| > RANGE_MAX_COUNT {
        TooMany(ranges, len);
        return true;
      }
      error := Normalize(len);
      if !error {
        NotRefused(old(ranges), len);
        var joined, sorted := CoalesceRanges(ranges, len);
        ranges := joined;
        RightAnswers(old(ranges), ranges, len);
      }
    }
  }

  /** The new ranges cover the bytes the old ones ask for. */
  ghost predicate Answers(ranges: seq<Range>, out: seq<Range>, len: nat) {
    && AllWithin(out, len)
    && (forall b: int :: Covered(out, b) <==> exists i | 0 <= i < |ranges| :: Wanted(ranges[i], len, b))
    && (Distinct(Normals(ranges, len)) ==> Apart(out))
  }

  lemma TooMany(ranges: seq<Range>, len: nat)
    requires |ranges| > RANGE_MAX_COUNT
    ensures Refused(ranges, len)
  {
  }

  lemma NotRefused(ranges: seq<Range>, len: nat)
    requires !Refused(ranges, len)
    ensures AllWithin(Normals(ranges, len), len)
  {
  }

  lemma RightAnswers(ranges: seq<Range>, out: seq<Range>, len: nat)
    requires AllStated(ranges)
    requires AllWithin(Normals(ranges, len), len) && Right(Normals(ranges, len), out, len)
    ensures Answers(ranges, out, len)
  {
    hide Covered, Distinct, Normals, Wanted;
    WantedIsCovered(ranges, len);
  }

  lemma {:induction false} MoreOverlap(s: seq<Range>, n: nat, m: nat)
    requires n <= m <= |s|
    ensures Overlapping(s, n) <= Overlapping(s, m)
    decreases m
  {
    if n < m {
      MoreOverlap(s, n, m - 1);
    }
  }

  /** The normal forms cover what the ranges ask for. */
  lemma WantedIsCovered(ranges: seq<Range>, len: nat)
    requires AllStated(ranges)
    requires AllWithin(Normals(ranges, len), len)
    ensures forall b: int ::
              Covered(Normals(ranges, len), b) <==> exists i | 0 <= i < |ranges| :: Wanted(ranges[i], len, b)
  {
    hide Wanted, Has, Normal;
    var normals := Normals(ranges, len);
    forall b: int
      ensures Covered(normals, b) <==> exists i | 0 <= i < |ranges| :: Wanted(ranges[i], len, b)
    {
      forall i | 0 <= i < |ranges|
        ensures Has(normals[i], b) <==> Wanted(ranges[i], len, b)
      {
        assert normals[i] == Normal(ranges[i], len) && Within(normals[i], len);
        NormalHas(ranges[i], len, b);
      }
    }
  }
}
