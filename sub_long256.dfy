/**
 * SubLong256Func, the SQL `-` on two long256 operands: NULL when either
 * operand is NULL_LONG256, otherwise a ripple-borrow subtraction whose borrow
 * out of `l3` is dropped.  The operands are the values the left and right
 * argument functions produce for the current record.
 */
module SubLong256 {
  import opened JavaLong
  import opened Long256Arith

  /**
   * The borrow getLong256A takes from limb `k`: none from `l0`, and from each
   * later limb the borrow out of the one below it.
   */
  function Borrow(x: Long256, y: Long256, k: nat): (b: Long)
    requires k <= 4
    decreases k, 0
    ensures b <= 1
  {
    if k == 0 then 0 else BorrowOut(Limb(x, k - 1), Limb(y, k - 1), DiffLimb(x, y, k - 1))
  }

  /** Limb `k` of the difference: `x - y - borrow` on that limb, wrapping around. */
  function DiffLimb(x: Long256, y: Long256, k: nat): Long
    requires k < 4
    decreases k, 1
  {
    Minus(Minus(Limb(x, k), Limb(y, k)), Borrow(x, y, k))
  }

  /** The ripple-borrow subtraction of getLong256A; the borrow out of `l3` is dropped. */
  function SubBorrowing(x: Long256, y: Long256): Long256 {
    Long256(DiffLimb(x, y, 0), DiffLimb(x, y, 1), DiffLimb(x, y, 2), DiffLimb(x, y, 3))
  }

  /**
   * getLong256A: `x - y`, given the operand values `x` (left) and `y` (right).
   * NULL on either side gives NULL; otherwise the difference modulo 2^256.
   */
  function GetLong256A(x: Long256, y: Long256): (r: Long256)
    ensures IsNull(x) || IsNull(y) ==> r == NULL_LONG256
    ensures !IsNull(x) && !IsNull(y) ==> ToNat(r) == (ToNat(x) - ToNat(y)) % TWO256
  {
    if x == NULL_LONG256 || y == NULL_LONG256 then NULL_LONG256
    else
      SubBorrowingIsModular(x, y);
      SubBorrowing(x, y)
  }

  /** getLong256B answers what getLong256A answers. */
  function GetLong256B(x: Long256, y: Long256): (r: Long256)
    ensures IsNull(x) || IsNull(y) ==> r == NULL_LONG256
    ensures !IsNull(x) && !IsNull(y) ==> ToNat(r) == (ToNat(x) - ToNat(y)) % TWO256
  {
    GetLong256A(x, y)
  }

  lemma {:induction false} ModOnceBelow(x: int)
    requires -TWO256 <= x < TWO256
    ensures x % TWO256 == if x < 0 then x + TWO256 else x
  {
  }

  /**
   * Four limb differences, each with its borrow put back, spell the full
   * difference plus the borrow dropped from the top.
   */
  lemma {:induction false} RippleDifference(x: Long256, y: Long256, r: Long256, b1: int, b2: int, b3: int, b4: int)
    requires 0 <= b4 <= 1
    requires r.l0 == x.l0 - y.l0 + b1 * TWO64
    requires r.l1 == x.l1 - y.l1 - b1 + b2 * TWO64
    requires r.l2 == x.l2 - y.l2 - b2 + b3 * TWO64
    requires r.l3 == x.l3 - y.l3 - b3 + b4 * TWO64
    ensures ToNat(r) == (ToNat(x) - ToNat(y)) % TWO256
  {
    assert ToNat(r) == ToNat(x) - ToNat(y) + b4 * TWO256;
    ToNatRange(r);
    WrapBelow(ToNat(x) - ToNat(y), ToNat(r), b4);
  }

  /** A number in range that is `d` plus a borrowed 2^256 or nothing is `d` modulo 2^256. */
  lemma {:induction false} WrapBelow(d: int, r: int, b: int)
    requires 0 <= r < TWO256 && 0 <= b <= 1 && r == d + b * TWO256
    ensures r == d % TWO256
  {
    ModOnceBelow(d);
  }

  /** Each limb of the difference, with the borrow it passes on, is the full limb difference. */
  lemma {:induction false} DiffLimbBorrows(x: Long256, y: Long256, k: nat)
    requires k < 4
    ensures DiffLimb(x, y, k) == Limb(x, k) - Limb(y, k) - Borrow(x, y, k) + Borrow(x, y, k + 1) * TWO64
  {
    BorrowIsUnderflow(Limb(x, k), Limb(y, k), Borrow(x, y, k));
  }

  /** The ripple-borrow subtraction is subtraction modulo 2^256. */
  lemma {:induction false} SubBorrowingIsModular(x: Long256, y: Long256)
    ensures ToNat(SubBorrowing(x, y)) == (ToNat(x) - ToNat(y)) % TWO256
  {
    DiffLimbBorrows(x, y, 0);
    DiffLimbBorrows(x, y, 1);
    DiffLimbBorrows(x, y, 2);
    DiffLimbBorrows(x, y, 3);
    assert Borrow(x, y, 0) == 0;
    RippleDifference(x, y, SubBorrowing(x, y), Borrow(x, y, 1), Borrow(x, y, 2), Borrow(x, y, 3), Borrow(x, y, 4));
  }

  /** Subtracting `b` from `a + b` gives back `a`, unless the sum is the NULL pattern. */
  lemma {:induction false} SubUndoesAdd(a: Long256, b: Long256)
    requires !IsNull(a) && !IsNull(b) && !IsNull(AddResult(a, b))
    ensures GetLong256A(AddResult(a, b), b) == a
  {
    var s := AddResult(a, b);
    AddSpec(a, b);
    ToNatRange(a);
    ToNatRange(b);
    AddThenSubtract(ToNat(a), ToNat(b), ToNat(s), ToNat(GetLong256A(s, b)));
    ToNatInjective(GetLong256A(s, b), a);
  }

  lemma {:induction false} AddThenSubtract(a: int, b: int, s: int, d: int)
    requires 0 <= a < TWO256 && 0 <= b < TWO256
    requires s == (a + b) % TWO256 && d == (s - b) % TWO256
    ensures d == a
  {
    ModOnce(a + b);
    ModOnceBelow(s - b);
  }

  /** When the sum lands on the NULL pattern the subtraction answers NULL, not `a`. */
  lemma {:induction false} SubOfNullSum(a: Long256, b: Long256)
    requires !IsNull(a) && IsNull(AddResult(a, b))
    ensures GetLong256A(AddResult(a, b), b) == NULL_LONG256 != a
  {
  }

  /** `x - x` is zero for every non-NULL `x`. */
  lemma {:induction false} SubSelfIsZero(x: Long256)
    requires !IsNull(x)
    ensures GetLong256A(x, x) == ZERO
  {
    ToNatInjective(GetLong256A(x, x), ZERO);
  }
}
