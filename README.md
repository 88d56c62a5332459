# Long256 arithmetic, the non-keyed `sum(long256)` aggregate and the filter loop

This project models the 256-bit integer core of QuestDB and proves properties of the model in Dafny.

- **`Long256Impl`.** A 256-bit value held in four Java `long` limbs, `l0` least significant. The pattern whose four limbs all equal `Numbers.LONG_NaN` means NULL. The model covers:
  - `add`, a ripple-carry addition whose carry is the bit trick `((a & b) | ((a | b) & ~s)) >>> 63`;
  - `equals`, `setAll` and `copyFrom`;
  - the static `add(x, y)`;
  - the initialisation of `NULL_LONG256`.
- **`SubLong256Func.getLong256A`.** The SQL `-` on two long256 values: a ripple-borrow subtraction that answers NULL when either operand is NULL. `getLong256B` is modelled as the same function.
- **`SumLong256VectorAggregateFunction`, non-keyed path.**
  - `aggregate` folds one page frame of 32-byte rows into a local value that starts at zero.
  - When that local value is not NULL, `aggregate` adds it into the shared `sum` and increments `count`.
  - `getLong256A` answers NULL when `count` is zero.
  - `clear` and `pushValueTypes` are modelled as well.
- **`AsyncFilteredRecordCursorFactory.filter`.** It empties the PageFrameReduceTask's row list, then appends the index of every row of the frame that passes the filter.

A limb is the type `JavaLong.Long`, the unsigned number `0 <= x < 2^64` that its 64 bits spell. Under that reading:
- Java's wrapping `+` and `-` are arithmetic modulo 2^64.
- `&`, `|`, `^` and `~` are defined bit by bit.
- `>>> 63` is division by 2^63.
- `Long256Arith.ToNat` reads four limbs as a number below 2^256.

Every arithmetic operation is proved against `+` or `-` modulo 2^256 on those numbers.

Where the source mutates state, the model does too:
- `Long256Impl` is a class with fields `l0..l3`.
- `SumLong256VectorAggregateFunction` is a class holding a `Long256Impl` `sum` and an integer `count`. Its `Aggregate` repeats the Java row loop with invariants.
- `Filter` runs the Java loop over a `DirectLongList` object.

Each method is proved against a specification function, and the lemmas prove what the source promises about that function:
- `FrameLocal` is the frame fold;
- `Merge` is the critical section;
- `AggregateFrames` is a run of `aggregate` calls;
- `Matching` is the filter.

Some of the code's behaviour is not what a reader of its documentation may expect. The model keeps the code's behaviour:
- `add` tests only its argument for NULL. A NULL receiver plus a non-NULL argument is an ordinary sum (`NullReceiverNotSticky`), not NULL.
- `count` goes up once per frame whose local value is not NULL, not once per row (`AggregateFramesCount`).
- `sub(add(a, b), b) == a` also fails when the sum itself lands on the NULL pattern, even though `a` and `b` are not NULL (`SubOfNullSum`).
- A NULL result from the aggregate does not mean that no frame counted. When the counted frames add up to the NULL pattern mod 2^256, `getLong256A` returns `sum` holding that pattern, and it `equals` NULL_LONG256 (`ResultAfterClear` states the sum, not that NULL means "nothing counted").
- A NULL row does not short-circuit the frame; see "## Findings".

## Model

| member | source | states |
|---|---|---|
| JavaLong.CarryIsOverflow | core/src/main/java/io/questdb/std/Long256Impl.java:112-123 | the carry expression of `add` is 1 exactly when the unsigned limb sum plus carry-in reaches 2^64, and the wrapped limb sum is that sum less the carried 2^64 |
| JavaLong.BorrowIsUnderflow | core/src/main/java/io/questdb/griffin/engine/functions/math/SubLong256FunctionFactory.java:85-98 | the borrow expression is 1 exactly when the limb difference minus borrow-in is negative, and the wrapped limb difference is that difference plus the borrowed 2^64 |
| JavaLong.BitwiseTop | core/src/main/java/io/questdb/std/Long256Impl.java:117 | bitwise and, or and exclusive-or on longs give a top bit that depends only on the operands' top bits, by the operator's truth table, which is all `>>> 63` observes |
| JavaLong.NotTop | core/src/main/java/io/questdb/std/Long256Impl.java:117 | `~` flips the top bit |
| JavaLong.UShr63 | core/src/main/java/io/questdb/std/Long256Impl.java:117 | `>>> 63` leaves at most the value 1 |
| Long256Arith.ToNatRange | core/src/main/java/io/questdb/std/Long256Impl.java:32-35 | four limbs spell a number below 2^256 |
| Long256Arith.ToNatInjective | core/src/main/java/io/questdb/std/Long256Impl.java:32-35 | two limb quadruples are equal exactly when they spell the same number |
| Long256Arith.IsNullIsNullPattern | core/src/main/java/io/questdb/std/Long256Impl.java:101-104 | the `isNull` test of `add` holds exactly for the value of NULL_LONG256 |
| Long256Arith.Carry | core/src/main/java/io/questdb/std/Long256Impl.java:115-123 | every carry fed into a limb is 0 or 1 |
| Long256Arith.SumLimbCarries | core/src/main/java/io/questdb/std/Long256Impl.java:115-125 | each limb of the sum plus the carry it passes on times 2^64 equals the two limbs plus the carry it received |
| Long256Arith.AddCarryingIsModular | core/src/main/java/io/questdb/std/Long256Impl.java:111-128 | the ripple-carry arithmetic yields (receiver + argument) mod 2^256, read as unsigned numbers |
| Long256Arith.AddSpec | core/src/main/java/io/questdb/std/Long256Impl.java:100-130 | `add` of a NULL argument gives NULL whatever the receiver held; otherwise the sum mod 2^256 |
| Long256Arith.AddCommutes | core/src/main/java/io/questdb/std/Long256Impl.java:100-141 | for two non-NULL operands the order of `add` does not matter |
| Long256Arith.CarryIntoLimb1 | core/src/main/java/io/questdb/std/Long256Impl.java:116-120 | (2^64 - 1, 0, 0, 0) plus (1, 0, 0, 0) is (0, 1, 0, 0): the carry reaches limb 1 |
| Long256Arith.WrapsAt256Bits | core/src/main/java/io/questdb/std/Long256Impl.java:125-126 | (2^256 - 1) plus 1 is zero: no carry leaves limb 3 |
| Long256Arith.NullReceiverNotSticky | core/src/main/java/io/questdb/std/Long256Impl.java:101-110 | a NULL receiver plus a non-NULL argument is NULL again exactly when the argument is zero |
| Long256Arith.AddResult | core/src/main/java/io/questdb/std/Long256Impl.java:100-130 | the value a receiver holding `t` holds after `add(v)`; the function that `AddLimbs`, `Add` and `Sum` are proved against, whose meaning `AddSpec` states |
| Long256Arith.Long256Impl.constructor | core/src/main/java/io/questdb/std/Long256Impl.java:31-35 | a new object holds (0, 0, 0, 0) |
| Long256Arith.Long256Impl.SetAll | core/src/main/java/io/questdb/std/Long256Impl.java:88-93 | the four limbs become the four arguments, and nothing else changes |
| Long256Arith.Long256Impl.CopyFrom | core/src/main/java/io/questdb/std/Long256Impl.java:44-49 | the four limbs become those of `value`, and nothing else changes |
| Long256Arith.Long256Impl.Equals | core/src/main/java/io/questdb/std/Long256Impl.java:51-56 | `equals` holds exactly when all four limbs match |
| Long256Arith.Long256Impl.AddLimbs | core/src/main/java/io/questdb/std/Long256Impl.java:100-130 | `add(v0..v3)` puts the NULL pattern in the receiver when the argument is NULL, and otherwise (old receiver + argument) mod 2^256 |
| Long256Arith.Long256Impl.Add | core/src/main/java/io/questdb/std/Long256Impl.java:132-134 | `add(x)` adds the value `x` held before the call, also when `x` is the receiver |
| Long256Arith.Long256Impl.Sum | core/src/main/java/io/questdb/std/Long256Impl.java:136-141 | the static `add` returns a fresh object holding `x` plus `y` and leaves `x` and `y` unchanged |
| Long256Arith.Long256Impl.NewNull | core/src/main/java/io/questdb/std/Long256Impl.java:143-150 | NULL_LONG256 is four LONG_NaN limbs and is NULL |
| SubLong256.Borrow | core/src/main/java/io/questdb/griffin/engine/functions/math/SubLong256FunctionFactory.java:90-98 | every borrow taken from a limb is 0 or 1 |
| SubLong256.DiffLimbBorrows | core/src/main/java/io/questdb/griffin/engine/functions/math/SubLong256FunctionFactory.java:90-100 | each limb of the difference equals the limb difference minus the borrow received plus the borrow passed on times 2^64 |
| SubLong256.SubBorrowingIsModular | core/src/main/java/io/questdb/griffin/engine/functions/math/SubLong256FunctionFactory.java:90-105 | the ripple-borrow arithmetic yields (x - y) mod 2^256, the borrow out of limb 3 being dropped |
| SubLong256.GetLong256A | core/src/main/java/io/questdb/griffin/engine/functions/math/SubLong256FunctionFactory.java:77-106 | NULL on either side gives NULL_LONG256; otherwise the result is (x - y) mod 2^256 |
| SubLong256.GetLong256B | core/src/main/java/io/questdb/griffin/engine/functions/math/SubLong256FunctionFactory.java:108-111 | answers what `getLong256A` answers: NULL_LONG256 when either side is NULL, otherwise (x - y) mod 2^256 |
| SubLong256.SubUndoesAdd | core/src/main/java/io/questdb/griffin/engine/functions/math/SubLong256FunctionFactory.java:78-105 | for non-NULL `a`, `b` whose sum is not the NULL pattern, `(a + b) - b` is `a` |
| SubLong256.SubOfNullSum | core/src/main/java/io/questdb/griffin/engine/functions/math/SubLong256FunctionFactory.java:81-83 | when `a + b` lands on the NULL pattern, `(a + b) - b` is NULL and not `a` |
| SubLong256.SubSelfIsZero | core/src/main/java/io/questdb/griffin/engine/functions/math/SubLong256FunctionFactory.java:77-106 | `x - x` is zero for every non-NULL `x` |
| SumLong256Vect.FrameLocal | core/src/main/java/io/questdb/griffin/engine/groupby/vect/SumLong256VectorAggregateFunction.java:61-72 | the frame-local value after the row loop: the rows added with `add` in row order from zero; `Aggregate` is proved against it, and the lemmas below state what it yields |
| SumLong256Vect.FrameLocalStep | core/src/main/java/io/questdb/griffin/engine/groupby/vect/SumLong256VectorAggregateFunction.java:65-72 | one pass of the row loop adds row `i` into the local value with `Long256Impl.add` |
| SumLong256Vect.FrameLocalOfNonNullRows | core/src/main/java/io/questdb/griffin/engine/groupby/vect/SumLong256VectorAggregateFunction.java:63-72 | a frame with no NULL row yields the sum of its rows mod 2^256 |
| SumLong256Vect.LastRowNullDropsFrame | core/src/main/java/io/questdb/griffin/engine/groupby/vect/SumLong256VectorAggregateFunction.java:70-73 | a NULL last row makes the local value NULL, and the frame is not merged |
| SumLong256Vect.EmptyFrameMerges | core/src/main/java/io/questdb/griffin/engine/groupby/vect/SumLong256VectorAggregateFunction.java:62-83 | a frame with no rows leaves the local value at zero, which is merged and counted unless zero is the NULL pattern |
| SumLong256Vect.NullRowRestartsFrame | core/src/main/java/io/questdb/griffin/engine/groupby/vect/SumLong256VectorAggregateFunction.java:65-72 | as written, the rows `x, NULL, y` fold to `NULL_LONG256 + y`, which is never `x + y` |
| SumLong256Vect.LocalSkippingNullsSum | core/src/main/java/io/questdb/griffin/engine/groupby/vect/SumLong256VectorAggregateFunction.java:65-72 | the corrected fold is the sum mod 2^256 of the non-NULL rows |
| SumLong256Vect.AllNullSumsToZero | core/src/main/java/io/questdb/griffin/engine/groupby/vect/SumLong256VectorAggregateFunction.java:65-73 | a frame of NULL rows only adds nothing under the corrected fold |
| SumLong256Vect.LocalNullExactlyWhenSumIs | core/src/main/java/io/questdb/griffin/engine/groupby/vect/SumLong256VectorAggregateFunction.java:65-73 | with NULL rows skipped, the frame value is the NULL pattern exactly when the non-NULL rows add up to it mod 2^256 |
| SumLong256Vect.MergeSkippingNullsSpec | core/src/main/java/io/questdb/griffin/engine/groupby/vect/SumLong256VectorAggregateFunction.java:65-83 | with NULL rows skipped, a frame that has a non-NULL row and whose non-NULL rows do not add up to the NULL pattern adds them to `sum` and counts once; any other frame leaves the cell unchanged |
| SumLong256Vect.SkippingNullsAddsAroundNullRow | core/src/main/java/io/questdb/griffin/engine/groupby/vect/SumLong256VectorAggregateFunction.java:65-83 | with NULL rows skipped, the rows `x, NULL, y` add `x + y` and count once, unless `x + y` is the NULL pattern, when the frame is dropped |
| SumLong256Vect.Merge | core/src/main/java/io/questdb/griffin/engine/groupby/vect/SumLong256VectorAggregateFunction.java:73-83 | the critical section given the frame-local value; `Aggregate` is proved against it and `MergeSpec` states its meaning |
| SumLong256Vect.MergeSpec | core/src/main/java/io/questdb/griffin/engine/groupby/vect/SumLong256VectorAggregateFunction.java:73-83 | a NULL local value changes nothing; otherwise `sum` grows by it mod 2^256 and `count` by exactly one |
| SumLong256Vect.MergeFrame | core/src/main/java/io/questdb/griffin/engine/groupby/vect/SumLong256VectorAggregateFunction.java:61-83 | one whole `aggregate` call adds the frame's contribution to `sum` and whether it counts to `count` |
| SumLong256Vect.AggregateFramesSum | core/src/main/java/io/questdb/griffin/engine/groupby/vect/SumLong256VectorAggregateFunction.java:59-85 | after a sequence of `aggregate` calls, `sum` is the start plus the contributions of all frames, mod 2^256 |
| SumLong256Vect.AggregateFramesCount | core/src/main/java/io/questdb/griffin/engine/groupby/vect/SumLong256VectorAggregateFunction.java:73-83 | `count` grows once per frame whose local value is not NULL: per call, not per row |
| SumLong256Vect.AggregateFramesSpec | core/src/main/java/io/questdb/griffin/engine/groupby/vect/SumLong256VectorAggregateFunction.java:59-85 | both of the above together |
| SumLong256Vect.FrameOrderIrrelevant | core/src/main/java/io/questdb/griffin/engine/groupby/vect/SumLong256VectorAggregateFunction.java:73-83 | the final `sum` and `count` are the same under any permutation of the frames |
| SumLong256Vect.ResultAfterClear | core/src/main/java/io/questdb/griffin/engine/groupby/vect/SumLong256VectorAggregateFunction.java:129-147 | from a cleared state, `getLong256A` is NULL when no frame counted, and otherwise the sum of the counted frames mod 2^256, which is itself the NULL pattern when that sum lands on it |
| SumLong256Vect.SumLong256VectorAggregateFunction.constructor | core/src/main/java/io/questdb/griffin/engine/groupby/vect/SumLong256VectorAggregateFunction.java:40-57 | a new function object starts with `sum` zero, `count` zero and `valueOffset` zero |
| SumLong256Vect.SumLong256VectorAggregateFunction.Aggregate | core/src/main/java/io/questdb/griffin/engine/groupby/vect/SumLong256VectorAggregateFunction.java:59-85 | `address == 0` changes nothing; otherwise the new state is the old one merged with the fold of the first `addressSize / 32` rows |
| SumLong256Vect.SumLong256VectorAggregateFunction.GetLong256A | core/src/main/java/io/questdb/griffin/engine/groupby/vect/SumLong256VectorAggregateFunction.java:141-152 | `getLong256A` and `getLong256B` answer NULL_LONG256 while `count` is not positive, and otherwise the shared `sum` |
| SumLong256Vect.SumLong256VectorAggregateFunction.Clear | core/src/main/java/io/questdb/griffin/engine/groupby/vect/SumLong256VectorAggregateFunction.java:129-133 | `sum` becomes (0, 0, 0, 0) and `count` 0, so the result is NULL |
| SumLong256Vect.SumLong256VectorAggregateFunction.PushValueTypes | core/src/main/java/io/questdb/griffin/engine/groupby/vect/SumLong256VectorAggregateFunction.java:117-122 | `valueOffset` becomes the column count before the call, exactly two LONG types are appended, and `sum` and `count` are untouched |
| AsyncFiltered.Filter | core/src/main/java/io/questdb/griffin/engine/table/AsyncFilteredRecordCursorFactory.java:109-121 | the row list ends up holding exactly the indices `0 <= r < frameRowCount` that pass the filter, strictly increasing, with nothing left from before |
| AsyncFiltered.Matching | core/src/main/java/io/questdb/griffin/engine/table/AsyncFilteredRecordCursorFactory.java:109-121 | the row list `filter` builds; `Filter` is proved against it, and the lemmas below state what it holds |
| AsyncFiltered.MatchingMembers | core/src/main/java/io/questdb/griffin/engine/table/AsyncFilteredRecordCursorFactory.java:115-120 | an index is listed exactly when it lies in the frame and passes the filter |
| AsyncFiltered.MatchingIncreasing | core/src/main/java/io/questdb/griffin/engine/table/AsyncFilteredRecordCursorFactory.java:115-119 | the list is strictly increasing: no duplicates, frame order kept |
| AsyncFiltered.MatchingLength | core/src/main/java/io/questdb/griffin/engine/table/AsyncFilteredRecordCursorFactory.java:115-120 | the list is no longer than `max(frameRowCount, 0)`, so it is empty for an empty frame |
| AsyncFiltered.MatchingEmpty | core/src/main/java/io/questdb/griffin/engine/table/AsyncFilteredRecordCursorFactory.java:115-120 | the list is empty exactly when no row of the frame passes the filter |
| AsyncFiltered.MatchingAll | core/src/main/java/io/questdb/griffin/engine/table/AsyncFilteredRecordCursorFactory.java:115-120 | a filter that always holds lists `0, 1, ..., frameRowCount - 1` |

## Left out

- The spin-lock: the `AtomicBoolean` compare-and-set loop, `Os.pause` and the thread safety of `LongAdder` are concurrency. The critical section is one sequential step of `Aggregate`, and a sequence of calls is `AggregateFrames`.
- The keyed Rosti path: `aggregate(pRosti, ...)`, `initRosti`, `merge`, `wrapUp` and the choice of `DistinctFunc`/`KeyValueFunc` in the constructor call native code that is not part of this model. The constructor takes `keyKind` and `workerCount` and ignores them.
- `Unsafe` memory: a frame is a sequence of `Long256` rows, where row `i` is the four longs at `address + 32 * i`. The writes of `putNull` are not modelled.
- `toSink`, `getLong256(rec, sink)` and `fromRnd`: rendering goes through `Numbers.appendLong256`, which is not part of this model, and `fromRnd` needs a random source.
- The getters `getLong0..getLong3` are the fields `l0..l3` themselves.
- Aliasing: the model returns values, not objects, so it does not show these identities:
  - `getLong256A` of the aggregate returns the shared `sum` object itself while `count` is positive, so a caller holding it sees later updates; otherwise it returns the shared static NULL_LONG256 object.
  - `SubLong256Func.getLong256A` returns a fresh object when both operands are non-NULL, and otherwise the shared static NULL_LONG256 object.
- Long256Arith.Long256Impl.Equals: its parameter is a `Long256Impl`. Java's `equals(Object)` casts its argument (Long256Impl.java:54), so any other object, or `null`, makes it throw; the model narrows the parameter type and leaves that exception out.
- SubLong256.GetLong256A: modelled on the operand values. It does not state that the operands are untouched, nor which object it returns: a fresh one when both operands are non-NULL, otherwise the shared NULL_LONG256 singleton.
- Numbers.LONG_NaN and ColumnType.LONG are defined in files that are not part of this model. They are constants of unspecified value, and every property holds whatever they are.
- SumLong256Vect.SumLong256VectorAggregateFunction.Aggregate: `count` is an unbounded integer and the `LongAdder` never overflows. The row count `addressSize / 32` is Java's truncating `long` division (`RowCount`).
- AsyncFiltered.Filter: the filter is a pure function of the row index. `record.setRowIndex` and `Function.getBool` are not modelled, and nor is an exception thrown by the filter.
- Dispatch and collection of page frames, cursor wiring, `close`, and factory `getSignature`/`newInstance` are plumbing outside this model.

## Findings

| source | as written | input that shows it | evidently intended | confidence | as-written member | corrected member |
|---|---|---|---|---|---|---|
| core/src/main/java/io/questdb/griffin/engine/groupby/vect/SumLong256VectorAggregateFunction.java:65-72 | a NULL row makes `add` replace the running local value by the NULL pattern, and the following rows are added onto that pattern, so the rows before it are lost and NULL_LONG256's value leaks into the sum | the frame `x, NULL, y` with `x` and `y` not NULL adds `NULL_LONG256 + y` instead of `x + y` | NULL rows are skipped, as SQL `sum` ignores NULLs: the frame adds the sum of its non-NULL rows. The corrected merge differs from the code in one more case: a frame with no non-NULL row, the empty frame included, is never counted, whereas the code counts an empty frame unless zero is the NULL pattern (`EmptyFrameMerges`). Like the code at line 73, it drops a frame whose value is the NULL pattern, here when the non-NULL rows add up to it. The other reading, where a NULL row makes the whole frame NULL so that it is dropped, differs from the code on `x, NULL, y` as well: that frame would be dropped, while the code adds `NULL_LONG256 + y` | not executed | SumLong256Vect.NullRowRestartsFrame | SumLong256Vect.MergeSkippingNullsSpec |

The class `SumLong256VectorAggregateFunction` keeps the code as written. The corrected fold, `LocalSkippingNulls` with `MergeSkippingNulls`, is stated and proved next to it. It departs from the code in two ways: NULL rows are skipped, and a frame without a non-NULL row is not counted, so an empty frame is not counted either, as an empty input to SQL `sum` gives NULL. It keeps the code's rule that a frame whose value is the NULL pattern is not merged (`LocalNullExactlyWhenSumIs`, `MergeSkippingNullsSpec`).
