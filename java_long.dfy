/**
 * The 64 bits of a Java `long` and the operators that the 256-bit arithmetic
 * applies to them: wrapping `+` and `-`, `&`, `|`, `^`, `~` and `>>> 63`.
 *
 * A limb is read as the unsigned number its 64 bits spell, so that Java's
 * two's-complement wrap-around is plain arithmetic modulo 2^64 and `>>> 63`
 * (an unsigned shift) yields the top bit.  The bitwise operators are defined bit by
 * bit, most significant bit first.
 */
module JavaLong {

  const TWO63: int := 0x8000_0000_0000_0000
  const TWO64: int := 0x1_0000_0000_0000_0000

  /** The bit pattern of a Java `long`, as an unsigned number. */
  type Long = x: int | 0 <= x < TWO64

  /**
   * Numbers.LONG_NaN, the limb value that marks NULL.  It is defined in a file
   * that is not part of this model, so its value is left unspecified and every
   * property below holds whatever it is.
   */
  const LONG_NaN: Long

  function Pow2(n: nat): (r: nat)
    ensures r >= 1
  {
    if n == 0 then 1 else 2 * Pow2(n - 1)
  }

  lemma {:induction false} Pow2Add(m: nat, n: nat)
    ensures Pow2(m + n) == Pow2(m) * Pow2(n)
  {
    if m > 0 {
      Pow2Add(m - 1, n);
    }
  }

  lemma {:induction false} Pow2Word()
    ensures Pow2(63) == TWO63 && Pow2(64) == TWO64
  {
    assert Pow2(3) == 8;
    Pow2Add(3, 3);
    assert Pow2(6) == 0x40;
    Pow2Add(6, 6);
    assert Pow2(12) == 0x1000;
    Pow2Add(12, 12);
    assert Pow2(24) == 0x100_0000;
    Pow2Add(24, 24);
    assert Pow2(48) == 0x1_0000_0000_0000;
    Pow2Add(48, 12);
    assert Pow2(60) == 0x1000_0000_0000_0000;
    Pow2Add(60, 3);
    assert Pow2(63) == TWO63;
  }

  /** A two-input boolean operator, applied to single bits. */
  datatype BitOp = AndOp | OrOp | XorOp {
    predicate Apply(x: bool, y: bool) {
      match this
      case AndOp => x && y
      case OrOp => x || y
      case XorOp => x != y
    }
  }

  /** `op` applied bit by bit to the low `n` bits of `a` and `b`, top bit first. */
  function Bitwise(op: BitOp, n: nat, a: int, b: int): (r: int)
    requires 0 <= a < Pow2(n) && 0 <= b < Pow2(n)
    ensures 0 <= r < Pow2(n)
  {
    if n == 0 then 0
    else
      var h := Pow2(n - 1);
      var aTop, bTop := a >= h, b >= h;
      (if op.Apply(aTop, bTop) then h else 0)
        + Bitwise(op, n - 1, if aTop then a - h else a, if bTop then b - h else b)
  }

  /** Java `a & b` on `long`. */
  function And(a: Long, b: Long): Long {
    Pow2Word();
    Bitwise(AndOp, 64, a, b)
  }

  /** Java `a | b` on `long`. */
  function Or(a: Long, b: Long): Long {
    Pow2Word();
    Bitwise(OrOp, 64, a, b)
  }

  /** Java `a ^ b` on `long`. */
  function Xor(a: Long, b: Long): Long {
    Pow2Word();
    Bitwise(XorOp, 64, a, b)
  }

  /** Java `~a` on `long`: every bit flipped, that is, `a` exclusive-or all ones. */
  function Not(a: Long): Long {
    Xor(a, TWO64 - 1)
  }

  /** Java `a + b` on `long`: wraps around modulo 2^64. */
  function Plus(a: Long, b: Long): Long {
    (a + b) % TWO64
  }

  /** Java `a - b` on `long`: wraps around modulo 2^64. */
  function Minus(a: Long, b: Long): Long {
    (a - b) % TWO64
  }

  /** How many passes a Java loop `for (i = 0; i < n; i++)` makes: `n`, or none when `n` is not positive. */
  function Max0(n: int): nat {
    if n > 0 then n else 0
  }

  /** Java `a >>> 63`: the unsigned shift that leaves only the top bit. */
  function UShr63(a: Long): (r: Long)
    ensures r <= 1
  {
    a / TWO63
  }

  /** The top bit of `x`, as a boolean. */
  predicate Top(x: Long) {
    x >= TWO63
  }

  /** Every bitwise operator acts on the top bit alone, whatever the other bits hold. */
  lemma {:induction false} BitwiseTop(op: BitOp, a: Long, b: Long)
    ensures Pow2(64) == TWO64
    ensures Top(Bitwise(op, 64, a, b)) == op.Apply(Top(a), Top(b))
  {
    Pow2Word();
    var h := Pow2(63);
    var rest := Bitwise(op, 63, if a >= h then a - h else a, if b >= h then b - h else b);
    assert Bitwise(op, 64, a, b) == (if op.Apply(a >= h, b >= h) then h else 0) + rest;
  }

  lemma {:induction false} NotTop(a: Long)
    ensures Top(Not(a)) == !Top(a)
  {
    BitwiseTop(XorOp, a, TWO64 - 1);
  }

  /**
   * The carry expression of Long256Impl.add, `((a & b) | ((a | b) & ~s)) >>> 63`
   * with `s = a + b + c`, is 1 exactly when the unsigned sum `a + b + c` does not
   * fit in 64 bits; and `s` is that sum less the carried 2^64.
   */
  function CarryOut(a: Long, b: Long, s: Long): Long {
    UShr63(Or(And(a, b), And(Or(a, b), Not(s))))
  }

  lemma {:induction false} CarryIsOverflow(a: Long, b: Long, c: Long)
    requires c <= 1
    ensures CarryOut(a, b, Plus(Plus(a, b), c)) == if a + b + c >= TWO64 then 1 else 0
    ensures Plus(Plus(a, b), c) == a + b + c - CarryOut(a, b, Plus(Plus(a, b), c)) * TWO64
  {
    var s := Plus(Plus(a, b), c);
    assert s == if a + b + c >= TWO64 then a + b + c - TWO64 else a + b + c;
    BitwiseTop(AndOp, a, b);
    BitwiseTop(OrOp, a, b);
    NotTop(s);
    BitwiseTop(AndOp, Or(a, b), Not(s));
    BitwiseTop(OrOp, And(a, b), And(Or(a, b), Not(s)));
    var t := Or(And(a, b), And(Or(a, b), Not(s)));
    assert Top(t) == ((Top(a) && Top(b)) || ((Top(a) || Top(b)) && !Top(s)));
    assert Top(t) == (a + b + c >= TWO64);
  }

  /**
   * The borrow expression of SubLong256Func, `((~a & b) | (~(a ^ b) & d)) >>> 63`
   * with `d = a - b - c`, is 1 exactly when the difference `a - b - c` is
   * negative; and `d` is that difference plus the borrowed 2^64.
   */
  function BorrowOut(a: Long, b: Long, d: Long): Long {
    UShr63(Or(And(Not(a), b), And(Not(Xor(a, b)), d)))
  }

  lemma {:induction false} BorrowIsUnderflow(a: Long, b: Long, c: Long)
    requires c <= 1
    ensures BorrowOut(a, b, Minus(Minus(a, b), c)) == if a - b - c < 0 then 1 else 0
    ensures Minus(Minus(a, b), c) == a - b - c + BorrowOut(a, b, Minus(Minus(a, b), c)) * TWO64
  {
    var d := Minus(Minus(a, b), c);
    assert d == if a - b - c < 0 then a - b - c + TWO64 else a - b - c;
    NotTop(a);
    BitwiseTop(AndOp, Not(a), b);
    BitwiseTop(XorOp, a, b);
    NotTop(Xor(a, b));
    BitwiseTop(AndOp, Not(Xor(a, b)), d);
    BitwiseTop(OrOp, And(Not(a), b), And(Not(Xor(a, b)), d));
    var t := Or(And(Not(a), b), And(Not(Xor(a, b)), d));
    assert Top(t) == ((!Top(a) && Top(b)) || (!(Top(a) != Top(b)) && Top(d)));
    assert Top(t) == (a - b - c < 0);
  }
}
