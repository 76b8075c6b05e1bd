/** The arithmetic/logic unit on the register values. Registers hold
    unbounded integers, so every operation follows the host language's integer
    semantics: bitwise operations act on the infinite two's-complement form,
    `%` is floor modulo, `>>` is a floor shift and a negative shift count is an
    error. */
module Alu {

  /** Binary operations of the ALU (true division is not modelled). */
  datatype BinOp = Add | Sub | Mul | And | Or | Xor | Shl | Shr | Mod

  /** What a binary ALU operation produces: a value, or the error it raises. */
  datatype AluResult = Value(v: int) | ZeroDivisor | NegativeShiftCount(count: int)

  /** The comparison flags: Equal, Less-than, Greater-than, each 0 or 1. */
  datatype Flags = Flags(E: int, L: int, G: int)

  // ---------------------------------------------------------------------
  // Bits of an unbounded integer in two's complement

  /** Bit i of x in two's complement (bit 0 is the least significant). */
  function Bit(x: int, i: nat): (b: int)
    ensures b == 0 || b == 1
    decreases i
  {
    if i == 0 then x % 2 else Bit(x / 2, i - 1)
  }

  /** Distance of x from the two fixed points 0 and -1 of halving. */
  function Size(x: int): nat {
    if x >= 0 then x else -x - 1
  }

  lemma HalveShrinks(x: int)
    requires x != 0 && x != -1
    ensures Size(x / 2) < Size(x)
    ensures (x / 2 < 0) == (x < 0)
  {
  }

  /** Unary complement, `~x`. */
  function Complement(x: int): int {
    -x - 1
  }

  /** `x & y` on unbounded integers. */
  function BitAnd(x: int, y: int): (r: int)
    ensures x >= 0 ==> 0 <= r <= x
    ensures y >= 0 ==> 0 <= r <= y
    ensures r < 0 <==> x < 0 && y < 0
    decreases Size(x) + Size(y)
  {
    if x == 0 || y == 0 then 0
    else if x == -1 then y
    else if y == -1 then x
    else
      HalveShrinks(x); HalveShrinks(y);
      2 * BitAnd(x / 2, y / 2) + (if x % 2 == 1 && y % 2 == 1 then 1 else 0)
  }

  /** `x | y` on unbounded integers. */
  function BitOr(x: int, y: int): (r: int)
    ensures x >= 0 && y >= 0 ==> x <= r && y <= r
    ensures r < 0 <==> x < 0 || y < 0
    decreases Size(x) + Size(y)
  {
    if x == -1 || y == -1 then -1
    else if x == 0 then y
    else if y == 0 then x
    else
      HalveShrinks(x); HalveShrinks(y);
      2 * BitOr(x / 2, y / 2) + (if x % 2 == 1 || y % 2 == 1 then 1 else 0)
  }

  /** `x ^ y` on unbounded integers. */
  function BitXor(x: int, y: int): (r: int)
    ensures r < 0 <==> (x < 0) != (y < 0)
    decreases Size(x) + Size(y)
  {
    if x == 0 then y
    else if y == 0 then x
    else if x == -1 then Complement(y)
    else if y == -1 then Complement(x)
    else
      HalveShrinks(x); HalveShrinks(y);
      2 * BitXor(x / 2, y / 2) + (if x % 2 == y % 2 then 0 else 1)
  }

  // Bit-level characterisations: the reference definitions the recursive
  // operations above are checked against.

  lemma {:induction false} BitOfDouble(x: int, c: int, i: nat)
    requires c == 0 || c == 1
    ensures Bit(2 * x + c, i) == if i == 0 then c else Bit(x, i - 1)
  {
    assert (2 * x + c) % 2 == c;
    assert (2 * x + c) / 2 == x;
  }

  lemma {:induction false} BitOfZero(i: nat)
    ensures Bit(0, i) == 0
  {
    if i > 0 { BitOfZero(i - 1); }
  }

  lemma {:induction false} BitOfMinusOne(i: nat)
    ensures Bit(-1, i) == 1
  {
    if i > 0 { BitOfMinusOne(i - 1); }
  }

  /** `~x` flips every bit of x. */
  lemma {:induction false} ComplementBit(x: int, i: nat)
    ensures Bit(Complement(x), i) == 1 - Bit(x, i)
    decreases i
  {
    assert Complement(x) % 2 == 1 - x % 2;
    assert Complement(x) / 2 == Complement(x / 2);
    if i > 0 { ComplementBit(x / 2, i - 1); }
  }

  lemma {:induction false} AndBit(x: int, y: int, i: nat)
    ensures Bit(BitAnd(x, y), i) == if Bit(x, i) == 1 && Bit(y, i) == 1 then 1 else 0
    decreases Size(x) + Size(y)
  {
    if x == 0 || y == 0 {
      BitOfZero(i);
    } else if x == -1 {
      BitOfMinusOne(i);
    } else if y == -1 {
      BitOfMinusOne(i);
    } else {
      HalveShrinks(x); HalveShrinks(y);
      BitOfDouble(BitAnd(x / 2, y / 2), if x % 2 == 1 && y % 2 == 1 then 1 else 0, i);
      if i > 0 { AndBit(x / 2, y / 2, i - 1); }
    }
  }

  lemma {:induction false} OrBit(x: int, y: int, i: nat)
    ensures Bit(BitOr(x, y), i) == if Bit(x, i) == 1 || Bit(y, i) == 1 then 1 else 0
    decreases Size(x) + Size(y)
  {
    if x == -1 || y == -1 {
      BitOfMinusOne(i);
    } else if x == 0 || y == 0 {
      BitOfZero(i);
    } else {
      HalveShrinks(x); HalveShrinks(y);
      BitOfDouble(BitOr(x / 2, y / 2), if x % 2 == 1 || y % 2 == 1 then 1 else 0, i);
      if i > 0 { OrBit(x / 2, y / 2, i - 1); }
    }
  }

  lemma {:induction false} XorBit(x: int, y: int, i: nat)
    ensures Bit(BitXor(x, y), i) == if Bit(x, i) == Bit(y, i) then 0 else 1
    decreases Size(x) + Size(y)
  {
    if x == 0 || y == 0 {
      BitOfZero(i);
    } else if x == -1 {
      BitOfMinusOne(i);
      ComplementBit(y, i);
    } else if y == -1 {
      BitOfMinusOne(i);
      ComplementBit(x, i);
    } else {
      HalveShrinks(x); HalveShrinks(y);
      BitOfDouble(BitXor(x / 2, y / 2), if x % 2 == y % 2 then 0 else 1, i);
      if i > 0 { XorBit(x / 2, y / 2, i - 1); }
    }
  }

  // ---------------------------------------------------------------------
  // Shifts and floor modulo

  function Pow2(n: nat): (p: int)
    ensures p >= 1
  {
    if n == 0 then 1 else 2 * Pow2(n - 1)
  }

  /** `x << n`: x doubled n times. */
  function ShiftLeft(x: int, n: nat): int {
    if n == 0 then x else 2 * ShiftLeft(x, n - 1)
  }

  /** `x >> n`: x halved n times, each time rounding toward minus infinity. */
  function ShiftRight(x: int, n: nat): int
    decreases n
  {
    if n == 0 then x else ShiftRight(x / 2, n - 1)
  }

  /** Shifting left by n multiplies by 2^n. */
  lemma {:induction false} ShiftLeftIsMultiplication(x: int, n: nat)
    ensures ShiftLeft(x, n) == x * Pow2(n)
  {
    if n > 0 {
      ShiftLeftIsMultiplication(x, n - 1);
      assert x * Pow2(n) == 2 * (x * Pow2(n - 1));
    }
  }

  /** Shifting left and back right gives the original value. */
  lemma {:induction false} ShiftRightShiftLeft(x: int, n: nat)
    ensures ShiftRight(ShiftLeft(x, n), n) == x
  {
    if n > 0 {
      assert ShiftLeft(x, n) / 2 == ShiftLeft(x, n - 1);
      ShiftRightShiftLeft(x, n - 1);
    }
  }

  /** A positive number times a positive multiplier is at least the number. */
  lemma {:induction false} MulAtLeast(d: int, k: int)
    requires d > 0 && k >= 1
    ensures d * k >= d
    decreases k
  {
    if k > 1 {
      MulAtLeast(d, k - 1);
      assert d * k == d * (k - 1) + d;
    }
  }

  /** A quotient is determined by any division identity with an in-range
      remainder. */
  lemma DivUnique(x: int, d: int, q: int, r: int)
    requires d > 0 && 0 <= r < d && x == d * q + r
    ensures x / d == q
  {
    var k := x / d - q;
    assert d * (x / d) + x % d == d * q + r;
    assert d * k == d * (x / d) - d * q;
    assert d * k == r - x % d;
    if k >= 1 {
      MulAtLeast(d, k);
    } else if k <= -1 {
      MulAtLeast(d, -k);
    }
  }

  /** Halving and then dividing by b is dividing by 2 * b. */
  lemma HalveThenDivide(x: int, b: int)
    requires b > 0
    ensures x / 2 / b == x / (2 * b)
  {
    var q, r := x / 2, x % 2;
    var q2, r2 := q / b, q % b;
    assert x == 2 * (b * q2 + r2) + r;
    assert x == (2 * b) * q2 + (2 * r2 + r);
    DivUnique(x, 2 * b, q2, 2 * r2 + r);
  }

  /** `x >> n` is x divided by 2^n, rounded toward minus infinity, for
      negative x as well (so -3 >> 1 is -2). */
  lemma {:induction false} ShiftRightIsFloorDivision(x: int, n: nat)
    ensures ShiftRight(x, n) == x / Pow2(n)
    decreases n
  {
    if n > 0 {
      ShiftRightIsFloorDivision(x / 2, n - 1);
      HalveThenDivide(x, Pow2(n - 1));
    }
  }

  /** `x // y` for y != 0: the quotient rounded toward minus infinity. */
  function FloorDiv(x: int, y: int): int
    requires y != 0
  {
    if y > 0 then x / y else (-x) / (-y)
  }

  /** `x % y` for y != 0: the remainder takes the sign of the divisor. */
  function FloorMod(x: int, y: int): (r: int)
    requires y != 0
    ensures x == y * FloorDiv(x, y) + r
    ensures y > 0 ==> 0 <= r < y
    ensures y < 0 ==> y < r <= 0
  {
    if y > 0 then x % y
    else
      assert -x == (-y) * ((-x) / (-y)) + (-x) % (-y);
      -((-x) % (-y))
  }

  // ---------------------------------------------------------------------
  // The ALU operations

  /** The value a binary ALU operation leaves in its first register, or the
      error the host raises for it. */
  function Apply(op: BinOp, x: int, y: int): (r: AluResult)
    ensures r.ZeroDivisor? <==> op == Mod && y == 0
    ensures r.NegativeShiftCount? <==> (op == Shl || op == Shr) && y < 0
    ensures r.NegativeShiftCount? ==> r.count == y
  {
    match op
    case Add => Value(x + y)
    case Sub => Value(x - y)
    case Mul => Value(x * y)
    case And => Value(BitAnd(x, y))
    case Or => Value(BitOr(x, y))
    case Xor => Value(BitXor(x, y))
    case Shl => if y < 0 then NegativeShiftCount(y) else Value(ShiftLeft(x, y))
    case Shr => if y < 0 then NegativeShiftCount(y) else Value(ShiftRight(x, y))
    case Mod => if y == 0 then ZeroDivisor else Value(FloorMod(x, y))
  }

  /** The value each operation gives when it succeeds, stated against the
      arithmetic and bit-level meanings rather than the recursive
      definitions: sum, difference and product; AND, OR and XOR bit by bit;
      shifts as multiplication and floor division by 2^y; MOD as the floor
      remainder, which carries the divisor's sign. */
  lemma ApplyValues(op: BinOp, x: int, y: int)
    ensures op == Add ==> Apply(op, x, y) == Value(x + y)
    ensures op == Sub ==> Apply(op, x, y) == Value(x - y)
    ensures op == Mul ==> Apply(op, x, y) == Value(x * y)
    ensures op == And ==>
              (Apply(op, x, y).Value? &&
               forall i: nat :: Bit(Apply(op, x, y).v, i) == if Bit(x, i) == 1 && Bit(y, i) == 1 then 1 else 0)
    ensures op == Or ==>
              (Apply(op, x, y).Value? &&
               forall i: nat :: Bit(Apply(op, x, y).v, i) == if Bit(x, i) == 1 || Bit(y, i) == 1 then 1 else 0)
    ensures op == Xor ==>
              (Apply(op, x, y).Value? &&
               forall i: nat :: Bit(Apply(op, x, y).v, i) == if Bit(x, i) == Bit(y, i) then 0 else 1)
    ensures op == Shl && y >= 0 ==> Apply(op, x, y) == Value(x * Pow2(y))
    ensures op == Shr && y >= 0 ==> Apply(op, x, y) == Value(x / Pow2(y))
    ensures op == Mod && y != 0 ==>
              (Apply(op, x, y).Value? &&
               var m := Apply(op, x, y).v;
               x == y * FloorDiv(x, y) + m && (y > 0 ==> 0 <= m < y) && (y < 0 ==> y < m <= 0))
  {
    match op {
      case And =>
        forall i: nat ensures Bit(BitAnd(x, y), i) == if Bit(x, i) == 1 && Bit(y, i) == 1 then 1 else 0 {
          AndBit(x, y, i);
        }
      case Or =>
        forall i: nat ensures Bit(BitOr(x, y), i) == if Bit(x, i) == 1 || Bit(y, i) == 1 then 1 else 0 {
          OrBit(x, y, i);
        }
      case Xor =>
        forall i: nat ensures Bit(BitXor(x, y), i) == if Bit(x, i) == Bit(y, i) then 0 else 1 {
          XorBit(x, y, i);
        }
      case Shl =>
        if y >= 0 {
          ShiftLeftIsMultiplication(x, y);
        }
      case Shr =>
        if y >= 0 {
          ShiftRightIsFloorDivision(x, y);
        }
      case _ =>
    }
  }

  /** CMP: clears the three flags and sets exactly the one that holds. */
  function Compare(x: int, y: int): (f: Flags)
    ensures f.E == 1 <==> x == y
    ensures f.L == 1 <==> x < y
    ensures f.G == 1 <==> x > y
    ensures f.E + f.L + f.G == 1
    ensures f.E in {0, 1} && f.L in {0, 1} && f.G in {0, 1}
  {
    if x == y then Flags(1, 0, 0)
    else if x < y then Flags(0, 1, 0)
    else Flags(0, 0, 1)
  }
}
