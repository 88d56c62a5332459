/**
 * SumLong256VectorAggregateFunction, the non-keyed path of `sum(long256)`.
 *
 * A worker folds one page frame of 32-byte rows into a local value that starts
 * at zero; when that local value is not the NULL pattern it is added into the
 * shared `sum` and `count` goes up by one, under a spin-lock.  The result is
 * NULL while `count` is zero.  The shared state is `Cell`; `Merge` is the
 * critical section and `AggregateFrames` is a sequence of whole `aggregate`
 * calls, one per frame.
 */
module SumLong256Vect {
  import opened JavaLong
  import opened Long256Arith

  /** `addressSize / (Long.BYTES * 4)`: Java's `long` division truncates toward zero. */
  function RowCount(addressSize: int): int {
    if addressSize >= 0 then addressSize / 32 else -((-addressSize) / 32)
  }

  /** The frame-local value after the loop of `aggregate`: rows added in row order from zero. */
  function FrameLocal(rows: seq<Long256>): Long256 {
    if rows == [] then ZERO else AddResult(FrameLocal(rows[..|rows| - 1]), rows[|rows| - 1])
  }

  /** The shared state: `sum` and the total of the `count` LongAdder. */
  datatype Cell = Cell(sum: Long256, count: int)

  /** The critical section of `aggregate`, given the frame-local value. */
  function Merge(c: Cell, local: Long256): Cell {
    if IsNull(local) then c else Cell(AddResult(c.sum, local), c.count + 1)
  }

  /** Whole `aggregate` calls on the given frames, one after another. */
  function AggregateFrames(c: Cell, frames: seq<seq<Long256>>): Cell
    decreases |frames|
  {
    if frames == [] then c else AggregateFrames(Merge(c, FrameLocal(frames[0])), frames[1..])
  }

  /** getLong256A (and getLong256B): NULL while no frame has been merged. */
  function Result(c: Cell): Long256 {
    if c.count > 0 then c.sum else NULL_LONG256
  }

  /** What frame `f` adds to the sum as a number, and whether it is counted at all. */
  function Contribution(f: seq<Long256>): nat {
    if IsNull(FrameLocal(f)) then 0 else ToNat(FrameLocal(f))
  }

  function Counted(f: seq<Long256>): nat {
    if IsNull(FrameLocal(f)) then 0 else 1
  }

  function SumBy<T>(xs: seq<T>, f: T -> nat): nat {
    if xs == [] then 0 else f(xs[0]) + SumBy(xs[1..], f)
  }

  // ---------------------------------------------------------------------
  // The frame-local fold

  /** Rows with no NULL among them add up to their sum modulo 2^256. */
  lemma {:induction false} FrameLocalOfNonNullRows(rows: seq<Long256>)
    requires forall k :: 0 <= k < |rows| ==> !IsNull(rows[k])
    ensures ToNat(FrameLocal(rows)) == SumBy(rows, ToNat) % TWO256
  {
    if rows != [] {
      var init, last := rows[..|rows| - 1], rows[|rows| - 1];
      FrameLocalOfNonNullRows(init);
      SplitLast(rows);
      SumBySnoc(init, last, ToNat);
      AddStep(FrameLocal(init), last, SumBy(init, ToNat), SumBy(rows, ToNat), FrameLocal(rows));
    }
  }

  /** Adding a non-NULL row to a value that is `total` modulo 2^256 gives `total` plus the row. */
  lemma {:induction false} AddStep(partial: Long256, last: Long256, total: nat, sum: nat, r: Long256)
    requires !IsNull(last) && ToNat(partial) == total % TWO256 && sum == total + ToNat(last)
    requires r == AddResult(partial, last)
    ensures ToNat(r) == sum % TWO256
  {
    AddSpec(partial, last);
    ModStep(total, ToNat(partial), ToNat(last), ToNat(r), sum);
  }

  /** The loop of `aggregate` takes one more row into the frame-local value. */
  lemma {:induction false} FrameLocalStep(rows: seq<Long256>, i: nat)
    requires i < |rows|
    ensures FrameLocal(rows[..i + 1]) == AddResult(FrameLocal(rows[..i]), rows[i])
  {
    assert rows[..i + 1][..i] == rows[..i];
  }

  /** A NULL last row makes the whole frame NULL, so the frame is not merged. */
  lemma {:induction false} LastRowNullDropsFrame(c: Cell, rows: seq<Long256>)
    requires rows != [] && IsNull(rows[|rows| - 1])
    ensures FrameLocal(rows) == NULL_LONG256
    ensures Merge(c, FrameLocal(rows)) == c
  {
  }

  /** A frame with no rows leaves the local value at zero, and zero is merged unless it is the NULL pattern. */
  lemma {:induction false} EmptyFrameMerges(c: Cell)
    ensures FrameLocal([]) == ZERO
    ensures Merge(c, FrameLocal([])) == if LONG_NaN == 0 then c else Cell(AddResult(c.sum, ZERO), c.count + 1)
  {
  }

  /**
   * As written, a NULL row inside a frame does not leave the running value
   * alone: it replaces it by the NULL pattern, and the rows after it are added
   * onto that pattern.  For rows `x, NULL, y` the frame contributes
   * `NULL_LONG256 + y`, never `x + y`.
   */
  lemma {:induction false} NullRowRestartsFrame(x: Long256, y: Long256)
    requires !IsNull(x) && !IsNull(y)
    ensures FrameLocal([x, NULL_LONG256, y]) == AddResult(NULL_LONG256, y)
    ensures ToNat(FrameLocal([x, NULL_LONG256, y])) != (ToNat(x) + ToNat(y)) % TWO256
  {
    var rows := [x, NULL_LONG256, y];
    assert rows[..2] == [x, NULL_LONG256];
    assert rows[..2][..1] == [x];
    assert FrameLocal(rows[..2]) == NULL_LONG256;
    NullPlusDiffers(x, y, FrameLocal(rows));
  }

  /** `NULL_LONG256 + y` is not `x + y` for any non-NULL `x`. */
  lemma {:induction false} NullPlusDiffers(x: Long256, y: Long256, r: Long256)
    requires !IsNull(x) && !IsNull(y) && r == AddResult(NULL_LONG256, y)
    ensures ToNat(r) != (ToNat(x) + ToNat(y)) % TWO256
  {
    AddSpec(NULL_LONG256, y);
    ToNatRange(NULL_LONG256);
    ToNatRange(x);
    ToNatRange(y);
    ToNatInjective(x, NULL_LONG256);
    ModAddCancel(ToNat(NULL_LONG256), ToNat(x), ToNat(y));
  }

  // ---------------------------------------------------------------------
  // Skipping NULL rows

  /** What a row adds when NULL rows are skipped. */
  function NonNullValue(v: Long256): nat {
    if IsNull(v) then 0 else ToNat(v)
  }

  predicate HasNonNullRow(rows: seq<Long256>) {
    exists k :: 0 <= k < |rows| && !IsNull(rows[k])
  }

  /** The frame-local value with NULL rows skipped: the other rows summed with the bare carry chain. */
  function LocalSkippingNulls(rows: seq<Long256>): Long256 {
    if rows == [] then ZERO
    else
      var partial, last := LocalSkippingNulls(rows[..|rows| - 1]), rows[|rows| - 1];
      if IsNull(last) then partial else AddCarrying(partial, last)
  }

  /**
   * The critical section with NULL rows skipped.  As in the code, a frame whose
   * value is the NULL pattern is not merged; a frame without a non-NULL row,
   * the empty frame among them, is not merged either.
   */
  function MergeSkippingNulls(c: Cell, rows: seq<Long256>): Cell {
    var local := LocalSkippingNulls(rows);
    if HasNonNullRow(rows) && !IsNull(local) then Cell(AddCarrying(c.sum, local), c.count + 1) else c
  }

  /** A frame counts under the corrected fold: it has a non-NULL row, and those rows do not add up to the NULL pattern. */
  predicate CountsSkippingNulls(rows: seq<Long256>) {
    HasNonNullRow(rows) && SumBy(rows, NonNullValue) % TWO256 != ToNat(NULL_LONG256)
  }

  lemma {:induction false} LocalSkippingNullsSum(rows: seq<Long256>)
    ensures ToNat(LocalSkippingNulls(rows)) == SumBy(rows, NonNullValue) % TWO256
  {
    if rows != [] {
      var init, last := rows[..|rows| - 1], rows[|rows| - 1];
      LocalSkippingNullsSum(init);
      SplitLast(rows);
      SumBySnoc(init, last, NonNullValue);
      SkipStep(LocalSkippingNulls(init), last, SumBy(init, NonNullValue), SumBy(rows, NonNullValue),
               LocalSkippingNulls(rows));
    }
  }

  /** One more row: a NULL row adds nothing, any other row adds its value modulo 2^256. */
  lemma {:induction false} SkipStep(partial: Long256, last: Long256, total: nat, sum: nat, r: Long256)
    requires ToNat(partial) == total % TWO256 && sum == total + NonNullValue(last)
    requires r == if IsNull(last) then partial else AddCarrying(partial, last)
    ensures ToNat(r) == sum % TWO256
  {
    if IsNull(last) {
      ToNatRange(partial);
      ModSmall(ToNat(partial));
      ModStep(total, ToNat(partial), NonNullValue(last), ToNat(r), sum);
    } else {
      AddCarryingIsModular(partial, last);
      ModStep(total, ToNat(partial), ToNat(last), ToNat(r), sum);
    }
  }

  lemma {:induction false} AllNullSumsToZero(rows: seq<Long256>)
    requires !HasNonNullRow(rows)
    ensures SumBy(rows, NonNullValue) == 0
  {
    if rows != [] {
      assert !IsNull(rows[0]) ==> HasNonNullRow(rows);
      assert forall k :: 0 <= k < |rows[1..]| ==> rows[1..][k] == rows[k + 1];
      AllNullSumsToZero(rows[1..]);
    }
  }

  /**
   * With NULL rows skipped, a frame that counts adds the sum of its non-NULL
   * rows modulo 2^256 and counts once; any other frame leaves the cell as it was.
   */
  lemma {:induction false} MergeSkippingNullsSpec(c: Cell, rows: seq<Long256>)
    ensures CountsSkippingNulls(rows) ==>
              ToNat(MergeSkippingNulls(c, rows).sum) == (ToNat(c.sum) + SumBy(rows, NonNullValue)) % TWO256
              && MergeSkippingNulls(c, rows).count == c.count + 1
    ensures !CountsSkippingNulls(rows) ==> MergeSkippingNulls(c, rows) == c
  {
    if CountsSkippingNulls(rows) {
      CountedFrameAdds(c, rows, MergeSkippingNulls(c, rows));
    } else {
      LocalNullExactlyWhenSumIs(rows);
    }
  }

  /** A frame that counts under the corrected fold merges as the cell `m`. */
  lemma {:induction false} CountedFrameAdds(c: Cell, rows: seq<Long256>, m: Cell)
    requires CountsSkippingNulls(rows) && m == MergeSkippingNulls(c, rows)
    ensures ToNat(m.sum) == (ToNat(c.sum) + SumBy(rows, NonNullValue)) % TWO256 && m.count == c.count + 1
  {
    var local := LocalSkippingNulls(rows);
    LocalNullExactlyWhenSumIs(rows);
    assert m == Cell(AddCarrying(c.sum, local), c.count + 1);
    LocalSkippingNullsSum(rows);
    AddReduced(c.sum, local, SumBy(rows, NonNullValue), m.sum);
  }

  /** The corrected frame value is the NULL pattern exactly when the non-NULL rows add up to it. */
  lemma {:induction false} LocalNullExactlyWhenSumIs(rows: seq<Long256>)
    ensures IsNull(LocalSkippingNulls(rows)) <==> SumBy(rows, NonNullValue) % TWO256 == ToNat(NULL_LONG256)
  {
    LocalSkippingNullsSum(rows);
    ToNatInjective(LocalSkippingNulls(rows), NULL_LONG256);
  }

  /** Adding a value that is `total` modulo 2^256 adds `total`. */
  lemma {:induction false} AddReduced(s: Long256, local: Long256, total: nat, r: Long256)
    requires ToNat(local) == total % TWO256 && r == AddCarrying(s, local)
    ensures ToNat(r) == (ToNat(s) + total) % TWO256
  {
    AddCarryingIsModular(s, local);
    ModAddRight(ToNat(s), total, ToNat(local), ToNat(r));
  }

  /** The rows `x, NULL, y` of the counterexample above now add up to `x + y`. */
  lemma {:induction false} SkippingNullsAddsAroundNullRow(c: Cell, x: Long256, y: Long256)
    requires !IsNull(x) && !IsNull(y)
    ensures (ToNat(x) + ToNat(y)) % TWO256 != ToNat(NULL_LONG256) ==>
              ToNat(MergeSkippingNulls(c, [x, NULL_LONG256, y]).sum) == (ToNat(c.sum) + ToNat(x) + ToNat(y)) % TWO256
              && MergeSkippingNulls(c, [x, NULL_LONG256, y]).count == c.count + 1
    ensures (ToNat(x) + ToNat(y)) % TWO256 == ToNat(NULL_LONG256) ==> MergeSkippingNulls(c, [x, NULL_LONG256, y]) == c
  {
    AroundNullRow(x, y);
    MergeSkippingNullsSpec(c, [x, NULL_LONG256, y]);
  }

  /** The rows `x, NULL, y` have a non-NULL row, and their non-NULL rows total `x + y`. */
  lemma {:induction false} AroundNullRow(x: Long256, y: Long256)
    requires !IsNull(x) && !IsNull(y)
    ensures HasNonNullRow([x, NULL_LONG256, y])
    ensures SumBy([x, NULL_LONG256, y], NonNullValue) == ToNat(x) + ToNat(y)
  {
    var rows := [x, NULL_LONG256, y];
    assert !IsNull(rows[0]);
    assert [y][1..] == [];
    assert SumBy([y], NonNullValue) == ToNat(y);
    assert [NULL_LONG256, y][1..] == [y];
    assert SumBy([NULL_LONG256, y], NonNullValue) == ToNat(y);
    assert rows[1..] == [NULL_LONG256, y];
  }

  // ---------------------------------------------------------------------
  // The shared cell

  /** One merge: NULL changes nothing; otherwise `sum` grows by `local` and `count` by one. */
  lemma {:induction false} MergeSpec(c: Cell, local: Long256)
    ensures IsNull(local) ==> Merge(c, local) == c
    ensures !IsNull(local) ==>
              ToNat(Merge(c, local).sum) == (ToNat(c.sum) + ToNat(local)) % TWO256
              && Merge(c, local).count == c.count + 1
  {
    AddSpec(c.sum, local);
  }

  /** One whole frame: the cell's sum grows by the frame's contribution, its count by whether it counts. */
  lemma {:induction false} MergeFrame(c: Cell, f: seq<Long256>)
    ensures ToNat(Merge(c, FrameLocal(f)).sum) == (ToNat(c.sum) + Contribution(f)) % TWO256
    ensures Merge(c, FrameLocal(f)).count == c.count + Counted(f)
  {
    var local := FrameLocal(f);
    MergeSpec(c, local);
    if IsNull(local) {
      ToNatRange(c.sum);
      ModSmall(ToNat(c.sum));
    }
  }

  /** Sequenced frames sum, modulo 2^256, to the contributions of the frames that count. */
  lemma {:induction false} AggregateFramesSum(c: Cell, frames: seq<seq<Long256>>)
    ensures ToNat(AggregateFrames(c, frames).sum) == (ToNat(c.sum) + SumBy(frames, Contribution)) % TWO256
    decreases |frames|
  {
    if frames != [] {
      var c' := Merge(c, FrameLocal(frames[0]));
      AggregateFramesSum(c', frames[1..]);
      SumByCons(frames, Contribution);
      MergeThenRest(c, frames[0], SumBy(frames[1..], Contribution), SumBy(frames, Contribution),
                    AggregateFrames(c', frames[1..]).sum);
      assert AggregateFrames(c, frames) == AggregateFrames(c', frames[1..]);
    } else {
      assert AggregateFrames(c, frames) == c;
      ToNatRange(c.sum);
      ModSmall(ToNat(c.sum));
    }
  }

  /** Merging frame `f` and then adding `rest` adds `f`'s contribution and `rest`. */
  lemma {:induction false} MergeThenRest(c: Cell, f: seq<Long256>, rest: nat, total: nat, r: Long256)
    requires total == Contribution(f) + rest
    requires ToNat(r) == (ToNat(Merge(c, FrameLocal(f)).sum) + rest) % TWO256
    ensures ToNat(r) == (ToNat(c.sum) + total) % TWO256
  {
    MergeFrame(c, f);
    ToNatRange(c.sum);
    ModChain(ToNat(c.sum), Contribution(f), ToNat(Merge(c, FrameLocal(f)).sum), rest, total, ToNat(r));
  }

  /** The count goes up once for each frame whose local value is not NULL. */
  lemma {:induction false} AggregateFramesCount(c: Cell, frames: seq<seq<Long256>>)
    ensures AggregateFrames(c, frames).count == c.count + SumBy(frames, Counted)
    decreases |frames|
  {
    if frames != [] {
      var c' := Merge(c, FrameLocal(frames[0]));
      MergeFrame(c, frames[0]);
      AggregateFramesCount(c', frames[1..]);
    }
  }

  /** Both halves together. */
  lemma {:induction false} AggregateFramesSpec(c: Cell, frames: seq<seq<Long256>>)
    ensures ToNat(AggregateFrames(c, frames).sum) == (ToNat(c.sum) + SumBy(frames, Contribution)) % TWO256
    ensures AggregateFrames(c, frames).count == c.count + SumBy(frames, Counted)
  {
    AggregateFramesSum(c, frames);
    AggregateFramesCount(c, frames);
  }

  /** The final `sum` and `count` do not depend on the order the frames are aggregated in. */
  lemma {:induction false} FrameOrderIrrelevant(c: Cell, frames: seq<seq<Long256>>, reordered: seq<seq<Long256>>)
    requires multiset(frames) == multiset(reordered)
    ensures AggregateFrames(c, frames) == AggregateFrames(c, reordered)
  {
    var a, b := AggregateFrames(c, frames), AggregateFrames(c, reordered);
    AggregateFramesSpec(c, frames);
    AggregateFramesSpec(c, reordered);
    SumByPermutation(frames, reordered, Contribution);
    SumByPermutation(frames, reordered, Counted);
    SameCell(a, b);
  }

  /** Cells with the same sum, as a number, and the same count are the same cell. */
  lemma {:induction false} SameCell(a: Cell, b: Cell)
    requires ToNat(a.sum) == ToNat(b.sum) && a.count == b.count
    ensures a == b
  {
    ToNatInjective(a.sum, b.sum);
  }

  /** From a cleared cell, the result is NULL exactly when no frame counted. */
  lemma {:induction false} ResultAfterClear(frames: seq<seq<Long256>>)
    ensures SumBy(frames, Counted) == 0 ==> Result(AggregateFrames(Cell(ZERO, 0), frames)) == NULL_LONG256
    ensures SumBy(frames, Counted) > 0 ==>
              ToNat(Result(AggregateFrames(Cell(ZERO, 0), frames))) == SumBy(frames, Contribution) % TWO256
  {
    var c := AggregateFrames(Cell(ZERO, 0), frames);
    AggregateFramesSum(Cell(ZERO, 0), frames);
    AggregateFramesCount(Cell(ZERO, 0), frames);
    ModZeroLeft(ToNat(ZERO), SumBy(frames, Contribution), ToNat(c.sum));
  }

  // ---------------------------------------------------------------------
  // Arithmetic helpers

  lemma {:induction false} ModAddLeft(a: int, b: int)
    requires 0 <= a && 0 <= b
    ensures (a % TWO256 + b) % TWO256 == (a + b) % TWO256
  {
    var q := a / TWO256;
    assert a == q * TWO256 + a % TWO256;
    assert a + b == q * TWO256 + (a % TWO256 + b);
  }

  /** Adding `x` to a running total already reduced modulo 2^256 is adding it to the full total. */
  lemma {:induction false} ModStep(total: int, reduced: int, x: int, r: int, sum: int)
    requires 0 <= total && 0 <= x && sum == total + x
    requires reduced == total % TWO256 && r == (reduced + x) % TWO256
    ensures r == sum % TWO256
  {
    ModAddLeft(total, x);
  }

  /** Adding `y` modulo 2^256 tells distinct numbers apart. */
  lemma {:induction false} ModAddCancel(a: int, b: int, y: int)
    requires 0 <= a < TWO256 && 0 <= b < TWO256 && 0 <= y < TWO256 && a != b
    ensures (a + y) % TWO256 != (b + y) % TWO256
  {
    ModOnce(a + y);
    ModOnce(b + y);
  }

  lemma {:induction false} ModAddRight(a: int, b: int, reduced: int, r: int)
    requires 0 <= a && 0 <= b && reduced == b % TWO256 && r == (a + reduced) % TWO256
    ensures r == (a + b) % TWO256
  {
    ModAddLeft(b, a);
  }

  /** `zero` stands for a term whose value is 0, kept abstract so that the solver does not unfold it. */
  lemma {:induction false} ModZeroLeft(zero: int, s: int, r: int)
    requires zero == 0 && r == (zero + s) % TWO256
    ensures r == s % TWO256
  {
  }

  lemma {:induction false} ModSmall(a: int)
    requires 0 <= a < TWO256
    ensures (a + 0) % TWO256 == a
  {
  }

  /** Adding `x` and then `rest`, each modulo 2^256, is adding their total once. */
  lemma {:induction false} ModChain(t: int, x: int, t': int, rest: int, total: int, r: int)
    requires 0 <= t < TWO256 && 0 <= x && 0 <= rest && total == x + rest
    requires t' == (t + x) % TWO256 && r == (t' + rest) % TWO256
    ensures r == (t + total) % TWO256
  {
    ModAddLeft(t + x, rest);
  }

  lemma {:induction false} SumByCons<T>(xs: seq<T>, f: T -> nat)
    requires xs != []
    ensures SumBy(xs, f) == f(xs[0]) + SumBy(xs[1..], f)
  {
  }

  lemma {:induction false} SplitLast<T>(xs: seq<T>)
    requires xs != []
    ensures xs[..|xs| - 1] + [xs[|xs| - 1]] == xs
  {
  }

  lemma {:induction false} SumBySnoc<T>(xs: seq<T>, x: T, f: T -> nat)
    ensures SumBy(xs + [x], f) == SumBy(xs, f) + f(x)
  {
    if xs != [] {
      assert (xs + [x])[1..] == xs[1..] + [x];
      SumBySnoc(xs[1..], x, f);
    }
  }

  lemma {:induction false} SumByConcat<T>(xs: seq<T>, ys: seq<T>, f: T -> nat)
    ensures SumBy(xs + ys, f) == SumBy(xs, f) + SumBy(ys, f)
  {
    if xs == [] {
      assert xs + ys == ys;
    } else {
      assert (xs + ys)[1..] == xs[1..] + ys;
      SumByConcat(xs[1..], ys, f);
    }
  }

  /** Taking out the element at `i` takes its value out of the total. */
  lemma {:induction false} SumByRemove<T>(ys: seq<T>, i: nat, f: T -> nat)
    requires i < |ys|
    ensures SumBy(ys, f) == f(ys[i]) + SumBy(ys[..i] + ys[i + 1..], f)
  {
    assert ys == ys[..i] + [ys[i]] + ys[i + 1..];
    SumByConcat(ys[..i] + [ys[i]], ys[i + 1..], f);
    SumByConcat(ys[..i], [ys[i]], f);
    SumByConcat(ys[..i], ys[i + 1..], f);
    assert SumBy([ys[i]], f) == f(ys[i]) + SumBy([ys[i]][1..], f);
    assert [ys[i]][1..] == [];
  }

  /** The elements of `ys` are the one at `i` and the rest. */
  lemma {:induction false} MultisetSplit<T>(ys: seq<T>, i: nat)
    requires i < |ys|
    ensures multiset(ys) == multiset{ys[i]} + multiset(ys[..i] + ys[i + 1..])
  {
    assert ys == ys[..i] + [ys[i]] + ys[i + 1..];
    assert multiset(ys[..i] + ys[i + 1..]) == multiset(ys[..i]) + multiset(ys[i + 1..]);
  }

  /** Two permutations of each other, less one copy of the same element, are still permutations. */
  lemma {:induction false} MultisetRemove<T>(xs: seq<T>, ys: seq<T>, i: nat)
    requires xs != [] && i < |ys| && ys[i] == xs[0] && multiset(xs) == multiset(ys)
    ensures multiset(xs[1..]) == multiset(ys[..i] + ys[i + 1..])
  {
    MultisetSplit(ys, i);
    MultisetSplit(xs, 0);
    assert xs[..0] + xs[1..] == xs[1..];
    var a, b := multiset(xs[1..]), multiset(ys[..i] + ys[i + 1..]);
    forall z
      ensures a[z] == b[z]
    {
      assert (multiset{xs[0]} + a)[z] == (multiset{xs[0]} + b)[z];
    }
  }

  lemma {:induction false} SumByPermutation<T>(xs: seq<T>, ys: seq<T>, f: T -> nat)
    requires multiset(xs) == multiset(ys)
    ensures SumBy(xs, f) == SumBy(ys, f)
    decreases |xs|
  {
    if xs == [] {
      assert |ys| == |multiset(ys)| == 0;
    } else {
      assert xs[0] in multiset(ys);
      var i :| 0 <= i < |ys| && ys[i] == xs[0];
      MultisetRemove(xs, ys, i);
      SumByPermutation(xs[1..], ys[..i] + ys[i + 1..], f);
      SumByRemove(ys, i, f);
    }
  }

  // ---------------------------------------------------------------------
  // The object

  /** ColumnType.LONG: defined outside this model, so left unspecified. */
  const LONG: int

  /** The growing list of value-slot types that pushValueTypes appends to. */
  class ArrayColumnTypes {
    var types: seq<int>

    constructor ()
      ensures types == []
    {
      types := [];
    }

    function GetColumnCount(): int
      reads this
    {
      |types|
    }

    method Add(t: int)
      modifies this
      ensures types == old(types) + [t]
    {
      types := types + [t];
    }
  }

  class SumLong256VectorAggregateFunction {
    const sum: Long256Impl
    var count: int
    var valueOffset: int
    const columnIndex: int

    /** The key kind and worker count only choose keyed-path collaborators; see README. */
    constructor (keyKind: int, columnIndex: int, workerCount: int)
      ensures fresh(sum)
      ensures State() == Cell(ZERO, 0) && valueOffset == 0 && this.columnIndex == columnIndex
    {
      sum := new Long256Impl();
      count := 0;
      valueOffset := 0;
      this.columnIndex := columnIndex;
    }

    function State(): Cell
      reads this, sum
    {
      Cell(sum.Value(), count)
    }

    /** getLong256A and getLong256B: NULL while no frame has been counted, and otherwise the shared sum. */
    function GetLong256A(): (r: Long256)
      reads this, sum
      ensures count <= 0 ==> r == NULL_LONG256
      ensures count > 0 ==> r == sum.Value()
    {
      Result(State())
    }

    /**
     * The non-keyed `aggregate(address, addressSize, ...)`: `memory` holds the
     * 32-byte rows starting at `address`, and the critical section under the
     * spin-lock runs as one sequential step.
     */
    method Aggregate(address: int, addressSize: int, memory: seq<Long256>, columnSizeHint: int, workerId: int)
      requires address != 0 ==> RowCount(addressSize) <= |memory|
      modifies this, sum
      ensures address == 0 ==> State() == old(State())
      ensures address != 0 ==> State() == Merge(old(State()), FrameLocal(memory[..Max0(RowCount(addressSize))]))
      ensures valueOffset == old(valueOffset)
    {
      if address != 0 {
        var rowCount := RowCount(addressSize);
        var value := new Long256Impl();
        var offset := 0;
        var i := 0;
        while i < rowCount
          invariant 0 <= i <= Max0(rowCount)
          invariant offset == 32 * i
          invariant value.Value() == FrameLocal(memory[..i])
          invariant State() == old(State()) && valueOffset == old(valueOffset)
        {
          assert offset / 32 == i;
          var row := memory[offset / 32];
          assert Long256(row.l0, row.l1, row.l2, row.l3) == memory[i];
          FrameLocalStep(memory, i);
          value.AddLimbs(row.l0, row.l1, row.l2, row.l3);
          offset := offset + 32;
          i := i + 1;
        }
        assert i == Max0(rowCount);
        if !IsNull(value.Value()) {
          sum.Add(value);
          count := count + 1;
        }
      }
    }

    method Clear()
      modifies this, sum
      ensures State() == Cell(ZERO, 0) && GetLong256A() == NULL_LONG256
      ensures valueOffset == old(valueOffset)
    {
      sum.SetAll(0, 0, 0, 0);
      count := 0;
    }

    method PushValueTypes(types: ArrayColumnTypes)
      modifies this, types
      ensures valueOffset == old(types.GetColumnCount())
      ensures types.types == old(types.types) + [LONG, LONG]
      ensures State() == old(State())
    {
      valueOffset := types.GetColumnCount();
      types.Add(LONG);
      types.Add(LONG);
    }
  }
}
