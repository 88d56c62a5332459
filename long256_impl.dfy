/**
 * Long256Impl: a 256-bit integer held in four Java `long` limbs, `l0` least
 * significant, where the pattern with every limb equal to LONG_NaN means NULL.
 *
 * `Long256` is the value held in the four limbs; `Long256Impl` is the mutable
 * object whose `add`, `setAll` and `copyFrom` overwrite them.  `AddCarrying` is
 * the straight-line ripple-carry arithmetic of `add`, and `AddResult` is what the
 * receiver holds after `add`, NULL check included.
 */
module Long256Arith {
  import opened JavaLong

  const TWO128: int := 0x1_0000_0000_0000_0000_0000_0000_0000_0000
  const TWO192: int := 0x1_0000_0000_0000_0000_0000_0000_0000_0000_0000_0000_0000_0000
  const TWO256: int := 0x1_0000_0000_0000_0000_0000_0000_0000_0000_0000_0000_0000_0000_0000_0000_0000_0000

  datatype Long256 = Long256(l0: Long, l1: Long, l2: Long, l3: Long)

  /** The value of Long256Impl.NULL_LONG256. */
  const NULL_LONG256: Long256 := Long256(LONG_NaN, LONG_NaN, LONG_NaN, LONG_NaN)

  /** The value of a freshly allocated Long256Impl: Java zero-initialises the limbs. */
  const ZERO: Long256 := Long256(0, 0, 0, 0)

  /** The test `add` makes of its argument: all four limbs equal LONG_NaN. */
  predicate IsNull(v: Long256) {
    v.l0 == LONG_NaN && v.l1 == LONG_NaN && v.l2 == LONG_NaN && v.l3 == LONG_NaN
  }

  /** The unsigned number the four limbs spell, `l0` least significant. */
  function ToNat(v: Long256): nat {
    v.l0 + v.l1 * TWO64 + v.l2 * TWO128 + v.l3 * TWO192
  }

  lemma {:induction false} ToNatRange(v: Long256)
    ensures ToNat(v) < TWO256
  {
  }

  /** Two values are equal exactly when they spell the same number. */
  lemma {:induction false} ToNatInjective(x: Long256, y: Long256)
    ensures ToNat(x) == ToNat(y) <==> x == y
  {
    if ToNat(x) == ToNat(y) {
      assert x.l3 == y.l3;
      assert x.l2 == y.l2;
      assert x.l1 == y.l1;
    }
  }

  lemma {:induction false} IsNullIsNullPattern(v: Long256)
    ensures IsNull(v) <==> v == NULL_LONG256
  {
  }

  /** Limb `k` of `v`, limb 0 being `l0`. */
  function Limb(v: Long256, k: nat): Long
    requires k < 4
  {
    if k == 0 then v.l0 else if k == 1 then v.l1 else if k == 2 then v.l2 else v.l3
  }

  /**
   * The carry `add` feeds into limb `k`: none into `l0`, and into each later
   * limb the carry out of the one below it.
   */
  function Carry(t: Long256, v: Long256, k: nat): (c: Long)
    requires k <= 4
    decreases k, 0
    ensures c <= 1
  {
    if k == 0 then 0 else CarryOut(Limb(v, k - 1), Limb(t, k - 1), SumLimb(t, v, k - 1))
  }

  /** Limb `k` of the sum: `v + t + carry` on that limb, wrapping around. */
  function SumLimb(t: Long256, v: Long256, k: nat): Long
    requires k < 4
    decreases k, 1
  {
    Plus(Plus(Limb(v, k), Limb(t, k)), Carry(t, v, k))
  }

  /** The ripple-carry addition of `add`; the carry out of `l3` is dropped. */
  function AddCarrying(t: Long256, v: Long256): Long256 {
    Long256(SumLimb(t, v, 0), SumLimb(t, v, 1), SumLimb(t, v, 2), SumLimb(t, v, 3))
  }

  /** What a receiver holding `t` holds after `add(v)`. */
  function AddResult(t: Long256, v: Long256): Long256 {
    if IsNull(v) then NULL_LONG256 else AddCarrying(t, v)
  }

  lemma {:induction false} ModOnce(x: int)
    requires 0 <= x < 2 * TWO256
    ensures x % TWO256 == if x >= TWO256 then x - TWO256 else x
  {
  }

  /**
   * Four limb sums, each with its carry taken out, spell the full sum less
   * the carry dropped from the top.
   */
  lemma {:induction false} RippleSum(a: Long256, b: Long256, r: Long256, c1: int, c2: int, c3: int, c4: int)
    requires 0 <= c4 <= 1
    requires r.l0 + c1 * TWO64 == a.l0 + b.l0
    requires r.l1 + c2 * TWO64 == a.l1 + b.l1 + c1
    requires r.l2 + c3 * TWO64 == a.l2 + b.l2 + c2
    requires r.l3 + c4 * TWO64 == a.l3 + b.l3 + c3
    ensures ToNat(r) == (ToNat(a) + ToNat(b)) % TWO256
  {
    assert ToNat(r) + c4 * TWO256 == ToNat(a) + ToNat(b);
    ToNatRange(r);
    WrapAbove(ToNat(a) + ToNat(b), ToNat(r), c4);
  }

  /** A number in range that is `s` less a carried 2^256 or nothing is `s` modulo 2^256. */
  lemma {:induction false} WrapAbove(s: int, r: int, c: int)
    requires 0 <= r < TWO256 && 0 <= c <= 1 && r + c * TWO256 == s
    ensures r == s % TWO256
  {
    ModOnce(s);
  }

  /** Each limb of the sum, with the carry it passes on, is the full limb sum. */
  lemma {:induction false} SumLimbCarries(t: Long256, v: Long256, k: nat)
    requires k < 4
    ensures SumLimb(t, v, k) + Carry(t, v, k + 1) * TWO64 == Limb(v, k) + Limb(t, k) + Carry(t, v, k)
  {
    CarryIsOverflow(Limb(v, k), Limb(t, k), Carry(t, v, k));
  }

  /** The ripple-carry addition is addition modulo 2^256. */
  lemma {:induction false} AddCarryingIsModular(t: Long256, v: Long256)
    ensures ToNat(AddCarrying(t, v)) == (ToNat(t) + ToNat(v)) % TWO256
  {
    SumLimbCarries(t, v, 0);
    SumLimbCarries(t, v, 1);
    SumLimbCarries(t, v, 2);
    SumLimbCarries(t, v, 3);
    assert Carry(t, v, 0) == 0;
    RippleSum(v, t, AddCarrying(t, v), Carry(t, v, 1), Carry(t, v, 2), Carry(t, v, 3), Carry(t, v, 4));
  }

  /**
   * `add` gives NULL when its argument is the NULL pattern, whatever the
   * receiver held, and otherwise the sum modulo 2^256.
   */
  lemma {:induction false} AddSpec(t: Long256, v: Long256)
    ensures IsNull(v) ==> AddResult(t, v) == NULL_LONG256
    ensures !IsNull(v) ==> ToNat(AddResult(t, v)) == (ToNat(t) + ToNat(v)) % TWO256
  {
    if !IsNull(v) {
      AddCarryingIsModular(t, v);
    }
  }

  /** Neither non-NULL operand order matters. */
  lemma {:induction false} AddCommutes(a: Long256, b: Long256)
    requires !IsNull(a) && !IsNull(b)
    ensures AddResult(a, b) == AddResult(b, a)
  {
    AddSpec(a, b);
    AddSpec(b, a);
    ToNatInjective(AddResult(a, b), AddResult(b, a));
  }

  /** (2^64 - 1) + 1 carries into limb 1. */
  lemma {:induction false} CarryIntoLimb1(a: Long256, b: Long256)
    requires a == Long256(TWO64 - 1, 0, 0, 0) && b == Long256(1, 0, 0, 0)
    ensures AddResult(a, b) == Long256(0, 1, 0, 0)
  {
    AddWithoutWrap(a, b, Long256(0, 1, 0, 0));
  }

  /** A sum that stays below 2^256 is the value whose number is that sum. */
  lemma {:induction false} AddWithoutWrap(t: Long256, v: Long256, r: Long256)
    requires !IsNull(v) && ToNat(t) + ToNat(v) < TWO256 && ToNat(r) == ToNat(t) + ToNat(v)
    ensures AddResult(t, v) == r
  {
    AddSpec(t, v);
    ModOnce(ToNat(t) + ToNat(v));
    ToNatInjective(AddResult(t, v), r);
  }

  /** (2^256 - 1) + 1 wraps to zero: no carry leaves limb 3. */
  lemma {:induction false} WrapsAt256Bits(a: Long256, b: Long256)
    requires a == Long256(TWO64 - 1, TWO64 - 1, TWO64 - 1, TWO64 - 1) && b == Long256(1, 0, 0, 0)
    ensures AddResult(a, b) == ZERO
  {
    AddSpec(a, b);
    assert ToNat(a) + ToNat(b) == TWO256;
    ToNatInjective(AddResult(a, b), ZERO);
  }

  /**
   * Only the argument is checked for NULL: a NULL receiver plus a non-NULL
   * argument is NULL again only when the argument is zero.
   */
  lemma {:induction false} NullReceiverNotSticky(v: Long256)
    requires !IsNull(v)
    ensures AddResult(NULL_LONG256, v) == NULL_LONG256 <==> v == ZERO
  {
    var r := AddResult(NULL_LONG256, v);
    AddSpec(NULL_LONG256, v);
    ToNatRange(NULL_LONG256);
    ToNatRange(v);
    AddBackToStart(ToNat(NULL_LONG256), ToNat(v), ToNat(r));
    ToNatInjective(r, NULL_LONG256);
    ToNatInjective(v, ZERO);
  }

  lemma {:induction false} AddBackToStart(n: int, x: int, y: int)
    requires 0 <= n < TWO256 && 0 <= x < TWO256 && y == (n + x) % TWO256
    ensures y == n <==> x == 0
  {
    ModOnce(n + x);
  }

  /** The mutable four-limb value. The getters getLong0..getLong3 are the fields. */
  class Long256Impl {
    var l0: Long
    var l1: Long
    var l2: Long
    var l3: Long

    /** `new Long256Impl()`: Java zero-initialises the fields. */
    constructor ()
      ensures Value() == ZERO
    {
      l0, l1, l2, l3 := 0, 0, 0, 0;
    }

    function Value(): Long256
      reads this
    {
      Long256(l0, l1, l2, l3)
    }

    method SetAll(v0: Long, v1: Long, v2: Long, v3: Long)
      modifies this
      ensures Value() == Long256(v0, v1, v2, v3)
    {
      l0, l1, l2, l3 := v0, v1, v2, v3;
    }

    method CopyFrom(value: Long256Impl)
      modifies this
      ensures Value() == old(value.Value())
    {
      var v0, v1, v2, v3 := value.l0, value.l1, value.l2, value.l3;
      l0, l1, l2, l3 := v0, v1, v2, v3;
    }

    predicate Equals(that: Long256Impl)
      reads this, that
      ensures Equals(that) <==> Value() == that.Value()
    {
      l0 == that.l0 && l1 == that.l1 && l2 == that.l2 && l3 == that.l3
    }

    /** `add(v0, v1, v2, v3)`. */
    method AddLimbs(v0: Long, v1: Long, v2: Long, v3: Long)
      modifies this
      ensures Value() == AddResult(old(Value()), Long256(v0, v1, v2, v3))
      ensures IsNull(Long256(v0, v1, v2, v3)) ==> Value() == NULL_LONG256
      ensures !IsNull(Long256(v0, v1, v2, v3)) ==>
                ToNat(Value()) == (old(ToNat(Value())) + ToNat(Long256(v0, v1, v2, v3))) % TWO256
    {
      var t, v := Value(), Long256(v0, v1, v2, v3);
      AddSpec(t, v);
      var isNull := v0 == LONG_NaN && v1 == LONG_NaN && v2 == LONG_NaN && v3 == LONG_NaN;
      if isNull {
        SetAll(LONG_NaN, LONG_NaN, LONG_NaN, LONG_NaN);
      } else {
        var carry := 0;
        var s0 := Plus(Plus(v0, l0), carry);
        assert s0 == SumLimb(t, v, 0);
        carry := CarryOut(v0, l0, s0);
        assert carry == Carry(t, v, 1);
        var s1 := Plus(Plus(v1, l1), carry);
        assert s1 == SumLimb(t, v, 1);
        carry := CarryOut(v1, l1, s1);
        assert carry == Carry(t, v, 2);
        var s2 := Plus(Plus(v2, l2), carry);
        assert s2 == SumLimb(t, v, 2);
        carry := CarryOut(v2, l2, s2);
        assert carry == Carry(t, v, 3);
        var s3 := Plus(Plus(v3, l3), carry);
        assert s3 == SumLimb(t, v, 3);
        SetAll(s0, s1, s2, s3);
      }
    }

    /** `add(Long256 x)`; `x` may be this object itself. */
    method Add(x: Long256Impl)
      modifies this
      ensures Value() == AddResult(old(Value()), old(x.Value()))
    {
      AddLimbs(x.l0, x.l1, x.l2, x.l3);
    }

    /** The static `add(x, y)`: a fresh object holding `x` plus `y`. */
    static method Sum(x: Long256Impl, y: Long256Impl) returns (sum: Long256Impl)
      ensures fresh(sum)
      ensures sum.Value() == AddResult(x.Value(), y.Value())
      ensures x.Value() == old(x.Value()) && y.Value() == old(y.Value())
    {
      sum := new Long256Impl();
      sum.CopyFrom(x);
      sum.Add(y);
    }

    /** The static initialiser of NULL_LONG256. */
    static method NewNull() returns (n: Long256Impl)
      ensures fresh(n)
      ensures n.Value() == NULL_LONG256 && IsNull(n.Value())
    {
      n := new Long256Impl();
      n.SetAll(LONG_NaN, LONG_NaN, LONG_NaN, LONG_NaN);
    }
  }
}
