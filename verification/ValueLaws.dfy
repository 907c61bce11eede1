/** What the shared operators compute (src/runtime/fast_value.cpp:71-435). */
module ValueLaws {
  import opened Values

  /** Quotient and remainder fit together; the remainder is smaller than the divisor and takes
      the sign of the dividend. These laws determine both. */
  lemma DivisionLaw(a: int, b: int)
    requires b != 0
    ensures a == TruncDiv(a, b) * b + TruncMod(a, b)
    ensures Abs(TruncMod(a, b)) < Abs(b)
    ensures TruncMod(a, b) == 0 || (TruncMod(a, b) < 0 <==> a < 0)
  {
    var q, r := Abs(a) / Abs(b), Abs(a) % Abs(b);
    assert Abs(a) == q * Abs(b) + r;
    SignedProduct(q, b);
  }

  lemma SignedProduct(q: int, b: int)
    ensures q * -b == -(q * b) && -q * b == -(q * b) && -q * -b == q * b
  {
  }

  /** No other quotient leaves such a remainder. */
  lemma DivisionUnique(a: int, b: int, q: int, r: int)
    requires b != 0 && a == q * b + r && Abs(r) < Abs(b) && (r == 0 || (r < 0 <==> a < 0))
    ensures q == TruncDiv(a, b) && r == TruncMod(a, b)
  {
    hide TruncDiv, TruncMod;
    DivisionLaw(a, b);
    OneRemainder(a, b, q, r, TruncDiv(a, b), TruncMod(a, b));
  }

  lemma OneRemainder(a: int, b: int, q: int, r: int, q': int, r': int)
    requires b != 0 && a == q * b + r && Abs(r) < Abs(b) && (r == 0 || (r < 0 <==> a < 0))
    requires a == q' * b + r' && Abs(r') < Abs(b) && (r' == 0 || (r' < 0 <==> a < 0))
    ensures q == q' && r == r'
  {
    assert (q - q') * b == r' - r;
    if q != q' {
      LargeMultiple(q - q', b);
    }
  }

  lemma LargeMultiple(d: int, b: int)
    requires d != 0 && b != 0
    ensures Abs(d * b) >= Abs(b)
  {
    if d > 0 {
      assert if b > 0 then d * b >= b else d * b <= b;
    } else {
      assert if b > 0 then d * b <= -b else d * b >= -b;
    }
  }

  predicate InRange(i: int) {
    -0x8000_0000 <= i < 0x8000_0000
  }

  /** Wrapping gives the one 32-bit number that differs by a multiple of 2^32. */
  lemma WrapExactly(i: int, r: int)
    ensures r == Wrap32(i) <==> InRange(r) && (r - i) % 0x1_0000_0000 == 0
  {
  }

  /** A division or remainder is a math error exactly on operands of different kinds, a zero
      divisor, or a kind the operator does not have. */
  lemma MathFailsExactly(op: Arith, a: Value, b: Value)
    ensures MathFails(op, a, b) <==>
              (op == Div && !(a.Int? && b.Int? && b.i != 0) && !(a.Flt? && b.Flt? && b.r != 0.0))
              || (op == Mod && !(a.Int? && b.Int? && b.i != 0))
  {
  }

  /** Product, sum and difference of integers, modulo 2^32. */
  lemma IntegerArithmetic(x: int, y: int, r: int)
    ensures Apply(Mul, Int(x), Int(y)) == Int(r) <==> InRange(r) && (r - x * y) % 0x1_0000_0000 == 0
    ensures Apply(Add, Int(x), Int(y)) == Int(r) <==> InRange(r) && (r - (x + y)) % 0x1_0000_0000 == 0
    ensures Apply(Sub, Int(x), Int(y)) == Int(r) <==> InRange(r) && (r - (x - y)) % 0x1_0000_0000 == 0
  {
    WrapExactly(x * y, r);
    WrapExactly(x + y, r);
    WrapExactly(x - y, r);
  }

  /** A quotient and its remainder, truncated toward zero. */
  predicate Divides(x: int, y: int, q: int, r: int)
    requires y != 0
  {
    x == q * y + r && Abs(r) < Abs(y) && (r == 0 || (r < 0 <==> x < 0))
  }

  /** The only quotient of registers that does not fit one. */
  predicate DivisionOverflows(x: int, y: int) {
    x == -0x8000_0000 && y == -1
  }

  lemma IntegerDivision(x: int, y: int, q: int, r: int)
    requires InRange(x) && InRange(y) && y != 0 && !DivisionOverflows(x, y)
    ensures Apply(Div, Int(x), Int(y)) == Int(q) && Apply(Mod, Int(x), Int(y)) == Int(r) <==> Divides(x, y, q, r)
  {
    DivisionLaw(x, y);
    QuotientFits(x, y);
    WrapExactly(TruncDiv(x, y), TruncDiv(x, y));
    if Divides(x, y, q, r) {
      DivisionUnique(x, y, q, r);
    }
    hide TruncDiv, TruncMod, Wrap32;
  }

  /** The quotient is no larger than the dividend. */
  lemma QuotientFits(x: int, y: int)
    requires InRange(x) && InRange(y) && y != 0 && !DivisionOverflows(x, y)
    ensures InRange(TruncDiv(x, y))
  {
    var q := Abs(x) / Abs(y);
    SmallerQuotient(Abs(x), Abs(y));
  }

  lemma SmallerQuotient(a: nat, b: nat)
    requires b > 0
    ensures 0 <= a / b <= a && (b > 1 && a > 0 ==> a / b < a)
  {
    Larger(a / b, b);
    DivMod(a, b);
  }

  lemma DivMod(a: nat, b: nat)
    requires b > 0
    ensures a == a / b * b + a % b && a / b >= 0 && a % b >= 0
  {
  }

  lemma {:induction false} Larger(q: nat, b: nat)
    requires b > 0
    ensures q * b >= q && (b > 1 && q > 0 ==> q * b > q)
    decreases q
  {
    if q > 0 {
      Larger(q - 1, b);
      assert q * b == (q - 1) * b + b;
    }
  }

  /** Dividing by zero has no value. */
  lemma DivisionByZero(a: Value, x: int)
    ensures Apply(Div, Int(x), Int(0)) == Apply(Mod, Int(x), Int(0)) == Dud
    ensures a.Flt? ==> Apply(Div, a, Flt(0.0)) == Dud
  {
  }

  /** Floats, as reals; there is no remainder. */
  lemma FloatArithmetic(x: real, y: real, z: real)
    ensures Apply(Add, Flt(x), Flt(y)) == Flt(z) <==> z - y == x
    ensures Apply(Sub, Flt(x), Flt(y)) == Flt(z) <==> z + y == x
    ensures y != 0.0 ==> (Apply(Mul, Flt(x), Flt(y)) == Flt(z) <==> z / y == x)
    ensures Apply(Mul, Flt(x), Flt(0.0)) == Flt(0.0)
    ensures y != 0.0 ==> (Apply(Div, Flt(x), Flt(y)) == Flt(z) <==> z * y == x)
    ensures Apply(Mod, Flt(x), Flt(y)) == Dud
  {
    FloatResults(x, y);
    hide Apply;
    if y != 0.0 {
      QuotientExactly(x * y, y, x, z);
      QuotientExactly(x, y, z, z);
    }
  }

  lemma FloatResults(x: real, y: real)
    ensures Apply(Add, Flt(x), Flt(y)) == Flt(x + y) && Apply(Sub, Flt(x), Flt(y)) == Flt(x - y) && Apply(Mod, Flt(x), Flt(y)) == Dud
    ensures Apply(Mul, Flt(x), Flt(y)) == Flt(x * y) && (y != 0.0 ==> Apply(Div, Flt(x), Flt(y)) == Flt(x / y))
    ensures Apply(Mul, Flt(x), Flt(0.0)) == Flt(0.0)
  {
  }

  lemma QuotientExactly(p: real, y: real, x: real, z: real)
    requires y != 0.0
    ensures p / y == z <==> z * y == p
    ensures p == x * y ==> (p == z <==> z / y == x)
  {
    assert p / y * y == p;
    assert z / y * y == z;
    if z * y == p {
      assert (z - p / y) * y == 0.0;
    }
  }

  /** Operands of different kinds, or of a kind the operator does not have: no value, and no
      order. */
  lemma OtherKinds(op: Arith, a: Value, b: Value)
    requires !(a.Int? && b.Int?) && !(a.Flt? && b.Flt?)
    ensures op in {Mul, Div, Mod, Add, Sub} ==> Apply(op, a, b) == Dud
    ensures op in {Lt, Gt, Lte, Gte} ==> Apply(op, a, b) == Bool(false)
  {
  }

  /** How two numbers compare, from which one is smaller. */
  predicate Compare(a: Value, b: Value, smaller: bool, larger: bool) {
    && Apply(Lt, a, b) == Apply(Gt, b, a) == Bool(smaller) && Apply(Gt, a, b) == Apply(Lt, b, a) == Bool(larger)
    && Apply(Lte, a, b) == Apply(Gte, b, a) == Bool(!larger) && Apply(Gte, a, b) == Apply(Lte, b, a) == Bool(!smaller)
    && Apply(Equ, a, b) == Bool(!smaller && !larger) && Apply(Neq, a, b) == Bool(smaller || larger)
  }

  /** All six comparisons follow the order of the numbers. */
  lemma OrderLaws(x: int, y: int, p: real, q: real)
    ensures Compare(Int(x), Int(y), y - x > 0, x - y > 0)
    ensures Compare(Flt(p), Flt(q), q - p > 0.0, p - q > 0.0)
  {
  }

  /** Equality of any two values: objects and duds are equal to nothing, themselves included. */
  lemma EqualityExactly(a: Value, b: Value)
    ensures Apply(Equ, a, b) == Bool(a == b && !a.Dud? && !a.Obj?)
    ensures Apply(Neq, a, b) == Bool(a != b || a.Dud? || a.Obj?)
    ensures ValueEquals(a, b) <==> Apply(Equ, a, b) == Bool(true)
  {
  }

  /** A number is true exactly if it differs from zero; a dud and an object never are. */
  lemma TruthExactly(v: Value)
    ensures v.Int? ==> Bool(Truthy(v)) == Apply(Neq, v, Int(0))
    ensures v.Flt? ==> Bool(Truthy(v)) == Apply(Neq, v, Flt(0.0))
    ensures v.Bool? ==> Bool(Truthy(v)) == v
    ensures v.Dud? || v.Obj? ==> !Truthy(v)
  {
  }
}
