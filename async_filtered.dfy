/**
 * The row-selection loop of AsyncFilteredRecordCursorFactory.filter: a worker
 * empties the PageFrameReduceTask's row list and appends, in order, the index
 * of every row of the page frame for which the filter is true.  The filter,
 * evaluated on the record positioned at row `r`, is the function `pred` of the
 * row index.
 */
module AsyncFiltered {
  import opened JavaLong

  /** The part of DirectLongList that `filter` uses: a list of longs that is cleared and appended to. */
  class DirectLongList {
    var elements: seq<int>

    constructor ()
      ensures elements == []
    {
      elements := [];
    }

    method Clear()
      modifies this
      ensures elements == []
    {
      elements := [];
    }

    method Add(x: int)
      modifies this
      ensures elements == old(elements) + [x]
    {
      elements := elements + [x];
    }
  }

  /** The two things `filter` reads from a PageFrameReduceTask. */
  class PageFrameReduceTask {
    const rows: DirectLongList
    const frameRowCount: int

    constructor (rows: DirectLongList, frameRowCount: int)
      ensures this.rows == rows && this.frameRowCount == frameRowCount
    {
      this.rows := rows;
      this.frameRowCount := frameRowCount;
    }
  }

  /** The row indices below `n` that satisfy `pred`, in increasing order. */
  function Matching(n: int, pred: int -> bool): seq<int>
    decreases Max0(n)
  {
    if n <= 0 then [] else Matching(n - 1, pred) + (if pred(n - 1) then [n - 1] else [])
  }

  /** `filter(record, task)`. */
  method Filter(task: PageFrameReduceTask, pred: int -> bool)
    modifies task.rows
    ensures task.rows.elements == Matching(task.frameRowCount, pred)
    ensures forall r :: r in task.rows.elements <==> 0 <= r < task.frameRowCount && pred(r)
    ensures forall i, j :: 0 <= i < j < |task.rows.elements| ==> task.rows.elements[i] < task.rows.elements[j]
  {
    var rows := task.rows;
    var frameRowCount := task.frameRowCount;
    rows.Clear();
    var r := 0;
    while r < frameRowCount
      invariant 0 <= r <= Max0(frameRowCount)
      invariant rows.elements == Matching(r, pred)
    {
      if pred(r) {
        rows.Add(r);
      }
      r := r + 1;
    }
    MatchingMembers(frameRowCount, pred);
    MatchingIncreasing(frameRowCount, pred);
  }

  /** An index is listed exactly when it lies in the frame and the filter holds for it. */
  lemma {:induction false} MatchingMembers(n: int, pred: int -> bool)
    ensures forall r :: r in Matching(n, pred) <==> 0 <= r < n && pred(r)
    decreases Max0(n)
  {
    if n > 0 {
      MatchingMembers(n - 1, pred);
    }
  }

  /** The list is strictly increasing: no index twice, and rows in frame order. */
  lemma {:induction false} MatchingIncreasing(n: int, pred: int -> bool)
    ensures forall i, j :: 0 <= i < j < |Matching(n, pred)| ==> Matching(n, pred)[i] < Matching(n, pred)[j]
    decreases Max0(n)
  {
    if n > 0 {
      MatchingIncreasing(n - 1, pred);
      MatchingMembers(n - 1, pred);
      var prefix := Matching(n - 1, pred);
      assert forall i :: 0 <= i < |prefix| ==> prefix[i] in prefix;
    }
  }

  /** At most one index per row of the frame, and none when the frame has no rows. */
  lemma {:induction false} MatchingLength(n: int, pred: int -> bool)
    ensures |Matching(n, pred)| <= Max0(n)
    decreases Max0(n)
  {
    if n > 0 {
      MatchingLength(n - 1, pred);
    }
  }

  /** The list is empty exactly when the filter holds for no row of the frame. */
  lemma {:induction false} MatchingEmpty(n: int, pred: int -> bool)
    ensures Matching(n, pred) == [] <==> forall r :: 0 <= r < n ==> !pred(r)
  {
    MatchingMembers(n, pred);
    if Matching(n, pred) != [] {
      var first := Matching(n, pred)[0];
      assert first in Matching(n, pred);
      assert 0 <= first < n && pred(first);
    } else {
      forall r | 0 <= r < n
        ensures !pred(r)
      {
        assert r !in Matching(n, pred);
      }
    }
  }

  /** A filter that holds everywhere lists every row: 0, 1, ..., n - 1. */
  lemma {:induction false} MatchingAll(n: int, pred: int -> bool)
    requires forall r :: 0 <= r < n ==> pred(r)
    ensures Matching(n, pred) == seq(Max0(n), i => i)
    decreases Max0(n)
  {
    if n > 0 {
      MatchingAll(n - 1, pred);
      assert seq(Max0(n), i => i) == seq(Max0(n - 1), i => i) + [n - 1];
    }
  }
}
