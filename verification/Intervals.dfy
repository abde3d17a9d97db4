/** The coalescing set of right-open intervals that records early arrivals. */
module Intervals {
  import opened Common

  /** [begin, end) */
  datatype Interval = Interval(begin: nat, end: nat) {
    predicate Proper() { begin < end }

    predicate Covers(p: int) { begin <= p < end }
  }

  /** The lexicographic order of the ordered set. */
  predicate Less(x: Interval, y: Interval) {
    x.begin < y.begin || (x.begin == y.begin && x.end < y.end)
  }

  /** Overlapping or adjacent. */
  predicate Touches(x: Interval, y: Interval) {
    x.begin <= y.end && y.begin <= x.end
  }

  function Hull(x: Interval, y: Interval): Interval {
    Interval(Min(x.begin, y.begin), Max(x.end, y.end))
  }

  /** Sorted, and no two members overlap or are adjacent. */
  ghost predicate Separated(s: seq<Interval>) {
    && (forall i :: 0 <= i < |s| ==> s[i].Proper())
    && (forall i, j :: 0 <= i < j < |s| ==> s[i].end < s[j].begin)
  }

  ghost predicate Covers(s: seq<Interval>, p: int) {
    exists i :: 0 <= i < |s| && s[i].Covers(p)
  }

  // ----- Specification: the naive, one-pass forms -----

  /** `s` with `iv` added and everything that touches it, directly or through others, fused. */
  function Merge(s: seq<Interval>, iv: Interval): seq<Interval> {
    if s == [] then [iv]
    else if s[0].end < iv.begin then [s[0]] + Merge(s[1..], iv)
    else if iv.end < s[0].begin then [iv] + s
    else Merge(s[1..], Hull(s[0], iv))
  }

  /** Where the component of `iv` ends once `iv` is added to `s`. */
  function ComponentEnd(s: seq<Interval>, iv: Interval): nat {
    if s == [] then iv.end
    else if s[0].end < iv.begin then ComponentEnd(s[1..], iv)
    else if iv.end < s[0].begin then iv.end
    else ComponentEnd(s[1..], Hull(s[0], iv))
  }

  /** The members that do not touch `iv`. */
  function Untouched(s: seq<Interval>, iv: Interval): seq<Interval> {
    if s == [] then []
    else (if Touches(s[0], iv) then [] else [s[0]]) + Untouched(s[1..], iv)
  }

  function Join(pre: seq<Interval>, x: Interval, post: seq<Interval>): seq<Interval> { pre + ([x] + post) }

  // ----- Algebra -----

  lemma TailSeparated(s: seq<Interval>)
    requires Separated(s) && s != []
    ensures Separated(s[1..])
    ensures forall i :: 0 <= i < |s[1..]| ==> s[0].end < s[1..][i].begin
  {}

  lemma CoversSplit(s: seq<Interval>, p: int)
    requires s != []
    ensures Covers(s, p) <==> s[0].Covers(p) || Covers(s[1..], p)
  {}

  lemma PrependSeparated(x: Interval, s: seq<Interval>)
    requires x.Proper() && Separated(s) && forall i :: 0 <= i < |s| ==> x.end < s[i].begin
    ensures Separated([x] + s)
  {}

  /** Merge keeps the set separated and never reaches below both inputs. */
  lemma {:induction false} MergeSeparated(s: seq<Interval>, iv: Interval, lo: int)
    requires Separated(s) && iv.Proper()
    requires lo < iv.begin && forall i :: 0 <= i < |s| ==> lo < s[i].begin
    ensures Separated(Merge(s, iv))
    ensures forall i :: 0 <= i < |Merge(s, iv)| ==> lo < Merge(s, iv)[i].begin
  {
    if s != [] {
      TailSeparated(s);
      HeadBefore(s);
      hide Separated;
      if s[0].end < iv.begin {
        MergeSeparated(s[1..], iv, s[0].end);
        PrependSeparated(s[0], Merge(s[1..], iv));
      } else if iv.end < s[0].begin {
        PrependSeparated(iv, s);
      } else {
        MergeSeparated(s[1..], Hull(s[0], iv), lo);
      }
    }
  }

  lemma HeadBefore(s: seq<Interval>)
    requires Separated(s) && s != []
    ensures s[0].Proper() && forall i :: 0 < i < |s| ==> s[0].end < s[i].begin
  {}

  /** Merge covers exactly the old points and those of the new interval. */
  lemma {:induction false} MergeCovers(s: seq<Interval>, iv: Interval, p: int)
    requires Separated(s) && iv.Proper()
    ensures Covers(Merge(s, iv), p) <==> Covers(s, p) || iv.Covers(p)
  {
    if s == [] {
      CoversSplit([iv], p);
    } else {
      TailSeparated(s);
      CoversSplit(s, p);
      if s[0].end < iv.begin {
        MergeCovers(s[1..], iv, p);
        CoversSplit([s[0]] + Merge(s[1..], iv), p);
      } else if iv.end < s[0].begin {
        CoversSplit([iv] + s, p);
      } else {
        MergeCovers(s[1..], Hull(s[0], iv), p);
      }
    }
  }

  /** The value returned is the end of the one member of the merged set that contains `iv`. */
  lemma {:induction false} MergeComponent(s: seq<Interval>, iv: Interval) returns (i: nat)
    requires Separated(s) && iv.Proper()
    ensures i < |Merge(s, iv)|
    ensures Merge(s, iv)[i].begin <= iv.begin && iv.end <= Merge(s, iv)[i].end == ComponentEnd(s, iv)
  {
    if s == [] {
      i := 0;
    } else {
      TailSeparated(s);
      if s[0].end < iv.begin {
        i := MergeComponent(s[1..], iv);
        i := i + 1;
      } else if iv.end < s[0].begin {
        i := 0;
      } else {
        i := MergeComponent(s[1..], Hull(s[0], iv));
      }
    }
  }

  /** The merged set reaches no further right than its inputs. */
  lemma {:induction false} MergeBounded(s: seq<Interval>, iv: Interval, hi: int)
    requires iv.end <= hi && forall i :: 0 <= i < |s| ==> s[i].end <= hi
    ensures ComponentEnd(s, iv) <= hi
    ensures forall i :: 0 <= i < |Merge(s, iv)| ==> Merge(s, iv)[i].end <= hi
  {
    if s != [] {
      if s[0].end < iv.begin {
        MergeBounded(s[1..], iv, hi);
      } else if s[0].begin <= iv.end {
        MergeBounded(s[1..], Hull(s[0], iv), hi);
      }
    }
  }

  lemma {:induction false} UntouchedMembers(s: seq<Interval>, iv: Interval, x: Interval)
    ensures x in Untouched(s, iv) <==> x in s && !Touches(x, iv)
  {
    if s != [] {
      UntouchedMembers(s[1..], iv, x);
    }
  }

  lemma {:induction false} UntouchedSeparated(s: seq<Interval>, iv: Interval)
    requires Separated(s)
    ensures Separated(Untouched(s, iv))
  {
    if s != [] {
      TailSeparated(s);
      UntouchedSeparated(s[1..], iv);
      forall i | 0 <= i < |Untouched(s[1..], iv)| ensures s[0].end < Untouched(s[1..], iv)[i].begin {
        UntouchedMembers(s[1..], iv, Untouched(s[1..], iv)[i]);
      }
    }
  }

  lemma EndNotCovered(s: seq<Interval>, i: nat)
    requires Separated(s) && i < |s|
    ensures !Covers(s, s[i].end)
  {}

  /** The component's end is the first point after `iv.begin` that neither `s` nor `iv` covers. */
  lemma ComponentEndMissing(s: seq<Interval>, iv: Interval)
    requires Separated(s) && iv.Proper()
    ensures iv.end <= ComponentEnd(s, iv)
    ensures !Covers(s, ComponentEnd(s, iv))
    ensures forall p :: iv.begin <= p < ComponentEnd(s, iv) ==> iv.Covers(p) || Covers(s, p)
  {}

  /** Above everything in the way of growing `iv` to the right, the same members are untouched. */
  lemma {:induction false} UntouchedGrow(s: seq<Interval>, iv: Interval, wide: Interval)
    requires iv.begin == wide.begin && iv.end <= wide.end
    requires forall i :: 0 <= i < |s| ==> (Touches(s[i], iv) <==> Touches(s[i], wide))
    ensures Untouched(s, iv) == Untouched(s, wide)
  {
    if s != [] {
      assert Touches(s[0], iv) <==> Touches(s[0], wide);
      UntouchedGrow(s[1..], iv, wide);
    }
  }

  /** When nothing in `s` starts before `iv`, adding `iv` and removing its component
      loses no point: the component is [iv.begin, ComponentEnd) and what is left lies beyond it. */
  lemma {:induction false} RemovalSplitsPoints(s: seq<Interval>, iv: Interval, p: int)
    requires Separated(s) && iv.Proper()
    requires forall i :: 0 <= i < |s| ==> iv.begin <= s[i].begin
    ensures Covers(s, p) || iv.Covers(p) <==> Covers(Untouched(s, iv), p) || iv.begin <= p < ComponentEnd(s, iv)
    ensures forall x :: x in Untouched(s, iv) ==> ComponentEnd(s, iv) < x.begin
  {
    if s != [] {
      TailSeparated(s);
      CoversSplit(s, p);
      if iv.end < s[0].begin {
        CoversSplit(Untouched(s, iv), p);
        NothingTouched(s, iv);
      } else {
        var wide := Hull(s[0], iv);
        UntouchedGrow(s[1..], iv, wide);
        RemovalSplitsPoints(s[1..], wide, p);
        assert Untouched(s, iv) == Untouched(s[1..], wide);
      }
    }
  }

  lemma {:induction false} NothingTouched(s: seq<Interval>, iv: Interval)
    requires forall i :: 0 <= i < |s| ==> iv.end < s[i].begin
    ensures Untouched(s, iv) == s
  {
    if s != [] {
      NothingTouched(s[1..], iv);
    }
  }

  // ----- The class -----

  /** Index of the first member that is not less than `x`. */
  method LowerBound(s: seq<Interval>, x: Interval) returns (k: nat)
    ensures k <= |s|
    ensures forall i :: 0 <= i < k ==> Less(s[i], x)
    ensures k < |s| ==> !Less(s[k], x)
  {
    k := 0;
    while k < |s| && Less(s[k], x)
      invariant k <= |s|
      invariant forall i :: 0 <= i < k ==> Less(s[i], x)
    {
      k := k + 1;
    }
  }

  /** `s` is `t` with `iv` inserted at index k. */
  ghost predicate InsertedAt(s: seq<Interval>, t: seq<Interval>, iv: Interval, k: nat) {
    && k < |s| == |t| + 1
    && s[k] == iv
    && (forall i {:trigger s[i]} :: 0 <= i < k ==> s[i] == t[i])
    && (forall i {:trigger s[i]} :: k < i < |s| ==> s[i] == t[i - 1])
  }

  /** Ordered-set insertion: fails on a member that is already present. */
  method Emplace(t: seq<Interval>, iv: Interval) returns (s: seq<Interval>, k: nat, success: bool)
    requires Separated(t) && iv.Proper()
    ensures if success then InsertedAt(s, t, iv, k) else s == t && k < |t| && t[k] == iv
    ensures forall i :: 0 <= i < k ==> t[i].begin <= iv.begin
    ensures forall i :: 0 <= i < k - 1 ==> t[i].end < iv.begin
    ensures forall i :: k <= i < |t| ==> iv.begin <= t[i].begin
  {
    k := LowerBound(t, iv);
    InsertionPoint(t, iv, k);
    success := k == |t| || t[k] != iv;
    s := if success then t[..k] + [iv] + t[k..] else t;
  }

  /** Replaces the members of `s` that touch `iv`, just inserted at index k, by one. */
  method FuseInserted(ghost t: seq<Interval>, s: seq<Interval>, iv: Interval, k: nat) returns (r: seq<Interval>, end: nat)
    requires Separated(t) && iv.Proper() && InsertedAt(s, t, iv, k)
    requires forall i :: 0 <= i < k ==> t[i].begin <= iv.begin
    requires forall i :: 0 <= i < k - 1 ==> t[i].end < iv.begin
    requires forall i :: k <= i < |t| ==> iv.begin <= t[i].begin
    ensures r == Merge(t, iv) && end == ComponentEnd(t, iv)
  {
    hide Merge, ComponentEnd, Separated, InsertedAt;
    var begin := iv.begin;
    end := iv.end;
    var left := k;
    InsertedNear(t, s, iv, k);
    if left != 0 {
      var ll := s[left - 1];
      if ll.end >= begin {
        begin, end, left := ll.begin, Max(end, ll.end), left - 1;
      }
    }
    var right := LowerBound(s, Interval(end + 1, end + 2));
    Fused(t, s, iv, k, left, end, right);
    r := s;
    if right != left + 1 {
      end := Max(end, s[right - 1].end);
      r := Join(s[..left], Interval(begin, end), s[right..]);
    }
  }

  class RightOpenIntervalSet {
    var intervals: seq<Interval>

    constructor ()
      ensures intervals == []
    {
      intervals := [];
    }

    /** Inserts `iv`, fuses what touches it, and returns the end of the fused interval. */
    method EmplaceMerge(iv: Interval) returns (end: nat)
      requires Separated(intervals) && iv.Proper()
      requires iv.end + 2 < U32 && forall i :: 0 <= i < |intervals| ==> intervals[i].end + 2 < U32
      modifies this
      ensures intervals == Merge(old(intervals), iv)
      ensures end == ComponentEnd(old(intervals), iv)
    {
      var s, k, success := Emplace(intervals, iv);
      if !success {
        AlreadyPresent(intervals, iv, k);
        return iv.end;
      }
      intervals, end := FuseInserted(intervals, s, iv, k);
    }

    /** Removes what touches `iv` and returns the end of the component `iv` forms with it. */
    method MergeRemove(iv: Interval) returns (end: nat)
      requires Separated(intervals) && iv.Proper()
      requires iv.end + 2 < U32 && forall i :: 0 <= i < |intervals| ==> intervals[i].end + 2 < U32
      modifies this
      ensures intervals == Untouched(old(intervals), iv)
      ensures end == ComponentEnd(old(intervals), iv)
    {
      end := iv.end;
      ghost var t := intervals;
      var left := LowerBound(intervals, iv);
      ghost var k := left;
      InsertionPoint(intervals, iv, k);
      if left != 0 {
        var ll := intervals[left - 1];
        if ll.end >= iv.begin {
          end, left := Max(end, ll.end), left - 1;
        }
      }
      var right := LowerBound(intervals, Interval(end + 1, end + 2));
      RemoveFuses(t, iv, k, left, end, right);
      if right != 0 {
        end := Max(end, intervals[right - 1].end);
        intervals := intervals[..left] + intervals[right..];
      }
    }
  }

  // ----- Lemmas for the methods -----

  lemma InsertionPoint(t: seq<Interval>, iv: Interval, k: nat)
    requires Separated(t) && iv.Proper() && k <= |t|
    requires forall i :: 0 <= i < k ==> Less(t[i], iv)
    requires k < |t| ==> !Less(t[k], iv)
    ensures forall i :: 0 <= i < k ==> t[i].begin <= iv.begin
    ensures forall i :: 0 <= i < k - 1 ==> t[i].end < iv.begin
    ensures forall i :: k <= i < |t| ==> iv.begin <= t[i].begin
  {
    forall i | 0 <= i < k - 1 ensures t[i].end < iv.begin {
      assert Less(t[k - 1], iv);
    }
  }

  /** Where the run of members fused on the right stops, in terms of the set before insertion at k. */
  lemma RightEdge(t: seq<Interval>, iv: Interval, s: seq<Interval>, k: nat, left: nat, end: nat, right: nat)
    requires Separated(t) && iv.Proper() && InsertedAt(s, t, iv, k) && right <= |s|
    requires forall i :: 0 <= i < k ==> t[i].begin <= iv.begin
    requires forall i :: 0 <= i < k - 1 ==> t[i].end < iv.begin
    requires forall i :: k <= i < |t| ==> iv.begin <= t[i].begin
    requires left == if k != 0 && t[k - 1].end >= iv.begin then k - 1 else k
    requires end == if left < k then Max(iv.end, t[k - 1].end) else iv.end
    requires forall i :: 0 <= i < right ==> Less(s[i], Interval(end + 1, end + 2))
    requires right < |s| ==> !Less(s[right], Interval(end + 1, end + 2))
    ensures left <= k < right && |s| == |t| + 1
    ensures forall i :: 0 <= i < left ==> t[i].end < iv.begin
    ensures forall i :: left <= i < right - 1 ==> Touches(t[i], iv)
    ensures forall i :: right - 1 <= i < |t| ==> iv.end < t[i].begin
    ensures left == right - 1 ==> end == iv.end
    ensures left < right - 1 ==> Max(end, s[right - 1].end) == Max(iv.end, t[right - 2].end)
    ensures left < right - 1 ==> Min(iv.begin, t[left].begin) == if left < k then t[left].begin else iv.begin
  {
    assert k < right;
    forall i | left <= i < right - 1 ensures Touches(t[i], iv) {
      assert t[i] == s[if i < k then i else i + 1];
    }
    if right <= |t| {
      assert t[right - 1] == s[right];
    }
  }

  lemma InsertedNear(t: seq<Interval>, s: seq<Interval>, iv: Interval, k: nat)
    requires InsertedAt(s, t, iv, k)
    ensures k < |s| == |t| + 1 && (k > 0 ==> s[k - 1] == t[k - 1])
  {}

  /** What the fused range becomes, in terms of the set after insertion. */
  lemma Fused(t: seq<Interval>, s: seq<Interval>, iv: Interval, k: nat, left: nat, end: nat, right: nat)
    requires Separated(t) && iv.Proper() && InsertedAt(s, t, iv, k) && right <= |s|
    requires forall i :: 0 <= i < k ==> t[i].begin <= iv.begin
    requires forall i :: 0 <= i < k - 1 ==> t[i].end < iv.begin
    requires forall i :: k <= i < |t| ==> iv.begin <= t[i].begin
    requires left == if k != 0 && t[k - 1].end >= iv.begin then k - 1 else k
    requires end == if left < k then Max(iv.end, t[k - 1].end) else iv.end
    requires forall i :: 0 <= i < right ==> Less(s[i], Interval(end + 1, end + 2))
    requires right < |s| ==> !Less(s[right], Interval(end + 1, end + 2))
    ensures left < right
    ensures right == left + 1 ==> Merge(t, iv) == s && ComponentEnd(t, iv) == end
    ensures right != left + 1 ==>
      && ComponentEnd(t, iv) == Max(end, s[right - 1].end)
      && Merge(t, iv) == Join(s[..left], Interval(if left < k then t[left].begin else iv.begin, ComponentEnd(t, iv)), s[right..])
  {
    hide *;
    RightEdge(t, iv, s, k, left, end, right);
    InsertedParts(s, t, iv, k, left, right - 1);
    if right == left + 1 {
      FusedAlone(t, iv, left);
    } else {
      FusedSome(t, iv, left, right - 1);
    }
  }

  lemma FusedAlone(t: seq<Interval>, iv: Interval, left: nat)
    requires Separated(t) && iv.Proper() && left <= |t|
    requires forall i :: 0 <= i < left ==> t[i].end < iv.begin
    requires forall i :: left <= i < |t| ==> iv.end < t[i].begin
    ensures Merge(t, iv) == Join(t[..left], iv, t[left..]) && ComponentEnd(t, iv) == iv.end
  {
    hide *;
    MergeIndexed(t, iv, left, left);
  }

  lemma FusedSome(t: seq<Interval>, iv: Interval, left: nat, r: nat)
    requires Separated(t) && iv.Proper() && left < r <= |t|
    requires forall i :: 0 <= i < left ==> t[i].end < iv.begin
    requires forall i :: left <= i < r ==> Touches(t[i], iv)
    requires forall i :: r <= i < |t| ==> iv.end < t[i].begin
    ensures ComponentEnd(t, iv) == Max(iv.end, t[r - 1].end)
    ensures Merge(t, iv) == Join(t[..left], Interval(Min(iv.begin, t[left].begin), ComponentEnd(t, iv)), t[r..])
  {
    hide *;
    MergeIndexed(t, iv, left, r);
  }

  lemma InsertedParts(s: seq<Interval>, t: seq<Interval>, iv: Interval, k: nat, l: nat, r: nat)
    requires InsertedAt(s, t, iv, k) && l <= k <= r <= |t|
    ensures s[..l] == t[..l] && s[r + 1..] == t[r..]
    ensures l == r ==> s == Join(t[..l], iv, t[r..])
  {}

  /** The naive forms pass over members that end before `iv`. */
  lemma {:induction false} SkipBefore(pre: seq<Interval>, rest: seq<Interval>, iv: Interval)
    requires forall i :: 0 <= i < |pre| ==> pre[i].end < iv.begin
    ensures Merge(pre + rest, iv) == pre + Merge(rest, iv)
    ensures ComponentEnd(pre + rest, iv) == ComponentEnd(rest, iv)
    ensures Untouched(pre + rest, iv) == pre + Untouched(rest, iv)
  {
    if pre == [] {
      assert pre + rest == rest;
    } else {
      assert (pre + rest)[1..] == pre[1..] + rest;
      SkipBefore(pre[1..], rest, iv);
    }
  }

  /** The naive forms stop at members that start after `iv`. */
  lemma StopAfter(post: seq<Interval>, iv: Interval)
    requires forall i :: 0 <= i < |post| ==> iv.end < post[i].begin
    requires iv.Proper() && forall i :: 0 <= i < |post| ==> post[i].Proper()
    ensures Merge(post, iv) == [iv] + post
    ensures ComponentEnd(post, iv) == iv.end
    ensures Untouched(post, iv) == post
  {}

  /** The naive forms fuse a first member that touches `iv`. */
  lemma HeadFused(s: seq<Interval>, iv: Interval)
    requires s != [] && Touches(s[0], iv)
    ensures Merge(s, iv) == Merge(s[1..], Hull(s[0], iv))
    ensures ComponentEnd(s, iv) == ComponentEnd(s[1..], Hull(s[0], iv))
    ensures Untouched(s, iv) == Untouched(s[1..], iv)
  {}

  /** The naive forms fuse a run of members that touch `iv`. */
  lemma {:induction false} FuseRun(run: seq<Interval>, post: seq<Interval>, iv: Interval, wide: Interval)
    requires Separated(run) && iv.Proper() && run != []
    requires forall i :: 0 <= i < |run| ==> Touches(run[i], iv)
    requires forall i :: 0 <= i < |post| ==> wide.end < post[i].begin && post[i].Proper()
    requires wide == Interval(Min(iv.begin, run[0].begin), Max(iv.end, run[|run| - 1].end))
    ensures Merge(run + post, iv) == [wide] + post
    ensures ComponentEnd(run + post, iv) == wide.end
    ensures Untouched(run + post, iv) == post
    decreases |run|
  {
    var h := Hull(run[0], iv);
    assert (run + post)[1..] == run[1..] + post;
    HeadFused(run + post, iv);
    hide Merge, ComponentEnd, Untouched;
    if |run| == 1 {
      assert run[1..] + post == post;
      StopAfter(post, h);
      StopAfter(post, iv);
    } else {
      TailSeparated(run);
      assert run[1..][0] == run[1];
      FuseRun(run[1..], post, h, wide);
      FuseRun(run[1..], post, iv, Interval(iv.begin, wide.end));
    }
  }

  /** The naive forms, for a set split into the members before, touching and after `iv`. */
  lemma MergeRange(t: seq<Interval>, pre: seq<Interval>, run: seq<Interval>, post: seq<Interval>, iv: Interval)
    requires t == pre + (run + post)
    requires Separated(run) && iv.Proper()
    requires forall i :: 0 <= i < |pre| ==> pre[i].end < iv.begin
    requires forall i :: 0 <= i < |run| ==> Touches(run[i], iv)
    requires forall i :: 0 <= i < |post| ==> post[i].Proper() && iv.end < post[i].begin
    requires run != [] ==> forall i :: 0 <= i < |post| ==> run[|run| - 1].end < post[i].begin
    ensures ComponentEnd(t, iv) == if run != [] then Max(iv.end, run[|run| - 1].end) else iv.end
    ensures Merge(t, iv) ==
      Join(pre, Interval(if run != [] then Min(iv.begin, run[0].begin) else iv.begin, ComponentEnd(t, iv)), post)
    ensures Untouched(t, iv) == pre + post
  {
    SkipBefore(pre, run + post, iv);
    if run == [] {
      assert run + post == post;
      StopAfter(post, iv);
    } else {
      FuseRun(run, post, iv, Interval(Min(iv.begin, run[0].begin), Max(iv.end, run[|run| - 1].end)));
    }
  }

  lemma AlreadyPresent(t: seq<Interval>, iv: Interval, k: nat)
    requires Separated(t) && iv.Proper() && k < |t| && t[k] == iv
    ensures Merge(t, iv) == t && ComponentEnd(t, iv) == iv.end
  {
    assert t == t[..k] + ([iv] + t[k + 1..]);
    MergeRange(t, t[..k], [iv], t[k + 1..], iv);
  }

  /** The three parts of a set around an interval. */
  lemma SplitAround(t: seq<Interval>, iv: Interval, l: nat, r: nat)
    requires Separated(t) && l <= r <= |t|
    requires forall i :: 0 <= i < l ==> t[i].end < iv.begin
    requires forall i :: l <= i < r ==> Touches(t[i], iv)
    requires forall i :: r <= i < |t| ==> iv.end < t[i].begin
    ensures t == t[..l] + (t[l..r] + t[r..])
    ensures Separated(t[l..r])
    ensures forall i :: 0 <= i < |t[..l]| ==> t[..l][i].end < iv.begin
    ensures forall i :: 0 <= i < |t[l..r]| ==> Touches(t[l..r][i], iv)
    ensures forall i :: 0 <= i < |t[r..]| ==> t[r..][i].Proper() && iv.end < t[r..][i].begin
    ensures l < r ==> t[l..r][0] == t[l] && t[l..r][|t[l..r]| - 1] == t[r - 1]
    ensures l < r ==> forall i :: 0 <= i < |t[r..]| ==> t[r - 1].end < t[r..][i].begin
  {
    SliceSeparated(t, l, r);
    Beyond(t, r);
    hide Separated, Touches;
  }

  lemma SliceSeparated(t: seq<Interval>, l: nat, r: nat)
    requires Separated(t) && l <= r <= |t|
    ensures Separated(t[l..r])
  {}

  lemma Beyond(t: seq<Interval>, r: nat)
    requires Separated(t) && r <= |t|
    ensures forall i :: 0 <= i < |t[r..]| ==> t[r..][i].Proper() && (r > 0 ==> t[r - 1].end < t[r..][i].begin)
  {}

  /** The naive forms, in terms of the index range [l, r) of the members that touch `iv`. */
  lemma MergeIndexed(t: seq<Interval>, iv: Interval, l: nat, r: nat)
    requires Separated(t) && iv.Proper() && l <= r <= |t|
    requires forall i :: 0 <= i < l ==> t[i].end < iv.begin
    requires forall i :: l <= i < r ==> Touches(t[i], iv)
    requires forall i :: r <= i < |t| ==> iv.end < t[i].begin
    ensures ComponentEnd(t, iv) == if l < r then Max(iv.end, t[r - 1].end) else iv.end
    ensures Merge(t, iv) ==
      Join(t[..l], Interval(if l < r then Min(iv.begin, t[l].begin) else iv.begin, ComponentEnd(t, iv)), t[r..])
    ensures Untouched(t, iv) == t[..l] + t[r..]
  {
    hide *;
    SplitAround(t, iv, l, r);
    MergeRange(t, t[..l], t[l..r], t[r..], iv);
  }

  /** What mergeRemove leaves in the set and returns. */
  lemma RemoveFuses(t: seq<Interval>, iv: Interval, k: nat, left: nat, end: nat, right: nat)
    requires Separated(t) && iv.Proper() && k <= |t| && right <= |t|
    requires forall i :: 0 <= i < k ==> t[i].begin <= iv.begin
    requires forall i :: 0 <= i < k - 1 ==> t[i].end < iv.begin
    requires forall i :: k <= i < |t| ==> iv.begin <= t[i].begin
    requires left == if k != 0 && t[k - 1].end >= iv.begin then k - 1 else k
    requires end == if left < k then Max(iv.end, t[k - 1].end) else iv.end
    requires forall i :: 0 <= i < right ==> Less(t[i], Interval(end + 1, end + 2))
    requires right < |t| ==> !Less(t[right], Interval(end + 1, end + 2))
    ensures left <= right
    ensures ComponentEnd(t, iv) == if right != 0 then Max(end, t[right - 1].end) else end
    ensures Untouched(t, iv) == t[..left] + t[right..]
  {
    RemovedEdge(t, iv, k, left, end, right);
    hide Less, Touches, Separated;
    MergeIndexed(t, iv, left, right);
  }

  lemma RemovedEdge(t: seq<Interval>, iv: Interval, k: nat, left: nat, end: nat, right: nat)
    requires Separated(t) && iv.Proper() && k <= |t| && right <= |t|
    requires forall i :: 0 <= i < k ==> t[i].begin <= iv.begin
    requires forall i :: 0 <= i < k - 1 ==> t[i].end < iv.begin
    requires forall i :: k <= i < |t| ==> iv.begin <= t[i].begin
    requires left == if k != 0 && t[k - 1].end >= iv.begin then k - 1 else k
    requires end == if left < k then Max(iv.end, t[k - 1].end) else iv.end
    requires forall i :: 0 <= i < right ==> Less(t[i], Interval(end + 1, end + 2))
    requires right < |t| ==> !Less(t[right], Interval(end + 1, end + 2))
    ensures left <= right
    ensures forall i :: 0 <= i < left ==> t[i].end < iv.begin
    ensures forall i :: left <= i < right ==> Touches(t[i], iv)
    ensures forall i :: right <= i < |t| ==> iv.end < t[i].begin
    ensures left == right ==> end == iv.end && (right > 0 ==> t[right - 1].end <= end)
    ensures left < right ==> Max(end, t[right - 1].end) == Max(iv.end, t[right - 1].end)
  {
    assert left <= right;
    forall i | left <= i < right ensures Touches(t[i], iv) {
      assert Less(t[i], Interval(end + 1, end + 2));
    }
  }
}
