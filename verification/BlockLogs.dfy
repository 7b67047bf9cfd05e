/** Logs by block, scans of block ranges, and the ranges scanned. */
module BlockLogs {
  datatype Logged<T> = Logged(block: int, event: T)

  datatype Range = Range(from: int, to: int)

  /** Logs in block order, none above `height`. */
  predicate InOrder<T>(logs: seq<Logged<T>>, height: int) {
    logs == []
    || (logs[|logs| - 1].block <= height && InOrder(logs[..|logs| - 1], logs[|logs| - 1].block))
  }

  /** The logs of the blocks after `low`, up to `high`. */
  function LogsBetween<T>(logs: seq<Logged<T>>, low: int, high: int): seq<Logged<T>> {
    if logs == [] then []
    else
      var last := logs[|logs| - 1];
      LogsBetween(logs[..|logs| - 1], low, high) + if low < last.block <= high then [last] else []
  }

  /** No log lies above a bound on all blocks. */
  lemma {:induction false} NothingAbove<T>(logs: seq<Logged<T>>, bound: int, low: int, high: int)
    requires InOrder(logs, bound) && bound <= low
    ensures LogsBetween(logs, low, high) == []
  {
    if logs != [] {
      NothingAbove(logs[..|logs| - 1], logs[|logs| - 1].block, low, high);
    }
  }

  /** Scanning two adjacent ranges finds what one scan over both finds. */
  lemma {:induction false} LogsBetweenJoin<T>(logs: seq<Logged<T>>, head: int, low: int, mid: int, high: int)
    requires low <= mid <= high && InOrder(logs, head)
    ensures LogsBetween(logs, low, mid) + LogsBetween(logs, mid, high) == LogsBetween(logs, low, high)
  {
    if logs != [] {
      var front, last := logs[..|logs| - 1], logs[|logs| - 1];
      LogsBetweenJoin(front, last.block, low, mid, high);
      if last.block <= mid {
        NothingAbove(front, last.block, mid, high);
      }
    }
  }

  lemma {:induction false} NothingInEmptyRange<T>(logs: seq<Logged<T>>, n: int)
    ensures LogsBetween(logs, n, n) == []
  {
    if logs != [] {
      NothingInEmptyRange(logs[..|logs| - 1], n);
    }
  }

  /** Ranges of blocks that follow each other without gap or overlap, from after `start` to `end`. */
  predicate Chained(ranges: seq<Range>, start: int, end: int) {
    if ranges == [] then start == end
    else
      var last := ranges[|ranges| - 1];
      start < last.from <= last.to == end && Chained(ranges[..|ranges| - 1], start, last.from - 1)
  }

  predicate Covers(ranges: seq<Range>, block: int) {
    exists k | 0 <= k < |ranges| :: ranges[k].from <= block <= ranges[k].to
  }

  lemma CoversStep(ranges: seq<Range>, block: int)
    requires ranges != []
    ensures Covers(ranges, block) <==>
              Covers(ranges[..|ranges| - 1], block) || ranges[|ranges| - 1].from <= block <= ranges[|ranges| - 1].to
  {
    var front := ranges[..|ranges| - 1];
    if Covers(front, block) {
      var k :| 0 <= k < |front| && front[k].from <= block <= front[k].to;
      assert ranges[k] == front[k];
    }
    if Covers(ranges, block) {
      var k :| 0 <= k < |ranges| && ranges[k].from <= block <= ranges[k].to;
      assert k < |front| ==> front[k] == ranges[k];
    }
  }

  /** Chained ranges cover exactly the blocks between their ends. */
  lemma {:induction false} ChainedRangesCover(ranges: seq<Range>, start: int, end: int, block: int)
    requires Chained(ranges, start, end)
    ensures start <= end && (Covers(ranges, block) <==> start < block <= end)
  {
    if ranges != [] {
      ChainedRangesCover(ranges[..|ranges| - 1], start, ranges[|ranges| - 1].from - 1, block);
      CoversStep(ranges, block);
    }
  }

  /** Chained ranges are disjoint and rising. */
  lemma {:induction false} ChainedRangesRise(ranges: seq<Range>, start: int, end: int)
    requires Chained(ranges, start, end)
    ensures forall j, k | 0 <= j < k < |ranges| :: ranges[j].to < ranges[k].from
  {
    if ranges != [] {
      var front := ranges[..|ranges| - 1];
      ChainedRangesRise(front, start, ranges[|ranges| - 1].from - 1);
      RangesEndBelow(front, start, ranges[|ranges| - 1].from - 1);
      forall j, k | 0 <= j < k < |ranges| ensures ranges[j].to < ranges[k].from {
        assert ranges[j] == front[j] && (k < |front| ==> ranges[k] == front[k]);
      }
    }
  }

  lemma {:induction false} RangesEndBelow(ranges: seq<Range>, start: int, end: int)
    requires Chained(ranges, start, end)
    ensures start <= end && forall k | 0 <= k < |ranges| :: ranges[k].to <= end
  {
    if ranges != [] {
      RangesEndBelow(ranges[..|ranges| - 1], start, ranges[|ranges| - 1].from - 1);
    }
  }
}
