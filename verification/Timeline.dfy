/** Looking up the ranges of a timeline that meet an interval. */
module Timeline {

  datatype Range = Range(start: int, end: int)

  predicate Covers(r: Range, key: int) { r.start <= key <= r.end }

  predicate Meets(r: Range, start: int, end: int) { r.start <= end && start <= r.end }

  /** In order, and no range touches the next. */
  ghost predicate Sorted(ranges: seq<Range>) {
    && (forall i :: 0 <= i < |ranges| ==> ranges[i].start <= ranges[i].end)
    && (forall i, j :: 0 <= i < j < |ranges| ==> ranges[i].end < ranges[j].start)
  }

  /** The range that covers the key, by position; -1 when there is none. */
  ghost predicate Found(ranges: seq<Range>, key: int, r: int) {
    if r == -1 then forall i :: 0 <= i < |ranges| ==> !Covers(ranges[i], key)
    else 0 <= r < |ranges| && Covers(ranges[r], key)
  }

  /** In a sorted list at most one range covers a key. */
  lemma FoundOnce(ranges: seq<Range>, key: int, r: int, q: int)
    requires Sorted(ranges) && Found(ranges, key, r) && Found(ranges, key, q)
    ensures r == q
  {
  }

  /** The bounds of the slice for an interval; its own position decides the bound at each end that is covered. */
  ghost predicate BoundsFor(ranges: seq<Range>, start: int, end: int, lo: nat, hi: nat) {
    var s, e := AnyCovers(ranges, start), AnyCovers(ranges, end);
    && (if s then Found(ranges, start, lo) else lo == 0)
    && (if e then Found(ranges, end, hi - 1) && hi > 0 else if s then hi == |ranges| else hi == 0)
  }

  /** For each interval there are bounds, and only one pair of them. */
  lemma BoundsExist(ranges: seq<Range>, start: int, end: int) returns (lo: nat, hi: nat)
    ensures lo <= |ranges| && hi <= |ranges| && BoundsFor(ranges, start, end, lo, hi)
  {
    lo, hi := 0, if AnyCovers(ranges, start) then |ranges| else 0;
    if AnyCovers(ranges, start) {
      lo :| lo < |ranges| && Covers(ranges[lo], start);
    }
    if AnyCovers(ranges, end) {
      var e: nat :| e < |ranges| && Covers(ranges[e], end);
      hi := e + 1;
    }
  }

  lemma BoundsOnce(ranges: seq<Range>, start: int, end: int, lo: nat, hi: nat, lo': nat, hi': nat)
    requires Sorted(ranges) && BoundsFor(ranges, start, end, lo, hi) && BoundsFor(ranges, start, end, lo', hi')
    ensures lo == lo' && hi == hi'
  {
    if AnyCovers(ranges, start) { FoundOnce(ranges, start, lo, lo'); }
    if AnyCovers(ranges, end) { FoundOnce(ranges, end, hi - 1, hi' - 1); }
  }

  /** A slice as Python takes it: empty when the bounds are crossed. */
  function Cut(ranges: seq<Range>, lo: nat, hi: nat): seq<Range>
    requires lo <= |ranges| && hi <= |ranges|
  {
    if lo <= hi then ranges[lo..hi] else []
  }

  class TimelineDataRange {
    var ranges: seq<Range>

    constructor ()
      ensures ranges == []
    {
      ranges := [];
    }

    method AddRange(r: Range)
      modifies this
      ensures ranges == old(ranges) + [r]
    {
      ranges := ranges + [r];
    }

    method Search(key: int) returns (r: int)
      requires Sorted(ranges)
      ensures Found(ranges, key, r)
    {
      var l, u := 0, |ranges| - 1;
      while l <= u
        invariant 0 <= l <= u + 1 <= |ranges|
        invariant forall i :: 0 <= i < |ranges| && Covers(ranges[i], key) ==> l <= i <= u
        decreases u - l
      {
        var i := (l + u) / 2;
        if ranges[i].start <= key && key <= ranges[i].end {
          return i;
        } else if key < ranges[i].start {
          u := i - 1;
        } else {
          l := i + 1;
        }
      }
      return -1;
    }

    method GetRangesBounds(start: int, end: int) returns (lo: nat, hi: nat)
      requires Sorted(ranges)
      ensures lo <= |ranges| && hi <= |ranges| && BoundsFor(ranges, start, end, lo, hi)
      ensures start <= end ==> lo <= hi && Slice(ranges, start, end, lo, hi)
    {
      var s := Search(start);
      var e := Search(end);
      FoundMeans(ranges, start, s);
      FoundMeans(ranges, end, e);
      if s == -1 && e == -1 {
        lo, hi := 0, 0;
      } else if s == -1 {
        lo, hi := 0, e + 1;
      } else if e == -1 {
        lo, hi := s, |ranges|;
      } else {
        lo, hi := s, e + 1;
      }
      if start <= end {
        SliceExactly(ranges, start, end, lo, hi);
      }
    }

    /** For every interval the ranges between its bounds, those that the other look-up returns. */
    method GetRanges(start: int, end: int) returns (r: seq<Range>)
      requires Sorted(ranges)
      ensures forall lo: nat, hi: nat :: BoundsFor(ranges, start, end, lo, hi) ==>
        && lo <= |ranges| && hi <= |ranges| && r == Cut(ranges, lo, hi)
        && (start <= end ==> lo <= hi && Slice(ranges, start, end, lo, hi))
    {
      var s := Search(start);
      var e := Search(end);
      FoundMeans(ranges, start, s);
      FoundMeans(ranges, end, e);
      ghost var lo, hi := 0, 0;
      if s == -1 && e == -1 {
        r := [];
      } else if s == -1 {
        r, hi := ranges[0..e + 1], e + 1;
      } else if e == -1 {
        r, lo, hi := ranges[s..|ranges|], s, |ranges|;
      } else {
        r, lo, hi := Cut(ranges, s, e + 1), s, e + 1;
      }
      forall lo': nat, hi': nat | BoundsFor(ranges, start, end, lo', hi') ensures lo' == lo && hi' == hi {
        BoundsOnce(ranges, start, end, lo, hi, lo', hi');
      }
      if start <= end {
        SliceExactly(ranges, start, end, lo, hi);
      }
    }
  }

  lemma FoundMeans(ranges: seq<Range>, key: int, r: int)
    requires Found(ranges, key, r)
    ensures AnyCovers(ranges, key) <==> r != -1
  {
  }

  ghost predicate AnyCovers(ranges: seq<Range>, key: int) { exists i :: 0 <= i < |ranges| && Covers(ranges[i], key) }

  ghost predicate AnyMeets(ranges: seq<Range>, start: int, end: int) {
    exists i :: 0 <= i < |ranges| && Meets(ranges[i], start, end)
  }

  /** The slice holds exactly the ranges that meet the interval. */
  ghost predicate Exact(ranges: seq<Range>, start: int, end: int, lo: nat, hi: nat) {
    forall i :: 0 <= i < |ranges| ==> (lo <= i < hi <==> Meets(ranges[i], start, end))
  }

  /** What the slice promises. It holds every range that meets the interval unless neither end of the interval is
      covered; it holds no other range exactly when each end that is not covered lies outside of all ranges. */
  ghost predicate Slice(ranges: seq<Range>, start: int, end: int, lo: nat, hi: nat) {
    if AnyCovers(ranges, start) || AnyCovers(ranges, end) then
      && ranges != []
      && (forall i :: 0 <= i < |ranges| && Meets(ranges[i], start, end) ==> lo <= i < hi)
      && (Exact(ranges, start, end, lo, hi) <==>
            && (AnyCovers(ranges, start) || start < ranges[0].start)
            && (AnyCovers(ranges, end) || ranges[|ranges| - 1].end < end))
    else
      lo == hi && (Exact(ranges, start, end, lo, hi) <==> !AnyMeets(ranges, start, end))
  }

  lemma SliceExactly(ranges: seq<Range>, start: int, end: int, lo: nat, hi: nat)
    requires Sorted(ranges) && start <= end && lo <= |ranges| && hi <= |ranges| && BoundsFor(ranges, start, end, lo, hi)
    ensures lo <= hi && Slice(ranges, start, end, lo, hi)
  {
    if AnyCovers(ranges, start) || AnyCovers(ranges, end) {
      var n := |ranges| - 1;
      assert Meets(ranges[0], start, end) || !Meets(ranges[0], start, end);
      assert Meets(ranges[n], start, end) || !Meets(ranges[n], start, end);
    }
  }
}
