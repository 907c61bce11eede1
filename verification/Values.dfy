/** The runtime's tagged values and the operators that the source language and the
    virtual machine share (src/runtime/fast_value.cpp). References into a sequence
    (`val_ref`) never arise in the modelled fragment and have no constructor here. */
module Values {

  /** A register's contents. `Obj` names a heap object by the slot it was created in. */
  datatype Value = Dud | Bool(b: bool) | Int(i: int) | Flt(r: real) | Obj(id: nat)

  /** A heap-allocated list or tuple. */
  datatype SeqObj = SeqObj(items: seq<Value>, frozen: bool)

  type Heap = seq<SeqObj>

  datatype Arith = Mul | Div | Mod | Add | Sub | Equ | Neq | Lt | Gt | Lte | Gte

  /** Two's complement 32-bit wrap-around of a mathematical integer. */
  function Wrap32(i: int): int {
    (i + 0x8000_0000) % 0x1_0000_0000 - 0x8000_0000
  }

  function Abs(i: int): nat {
    if i < 0 then -i else i
  }

  /** Integer division of C++: the quotient is truncated toward zero. */
  function TruncDiv(a: int, b: int): int
    requires b != 0
  {
    var q := Abs(a) / Abs(b);
    if (a < 0) == (b < 0) then q else -q
  }

  /** Remainder of C++: it takes the sign of the dividend. */
  function TruncMod(a: int, b: int): int
    requires b != 0
  {
    var m := Abs(a) % Abs(b);
    if a < 0 then -m else m
  }

  /** The explicit conversion to bool used by `jump_else`. */
  predicate Truthy(v: Value) {
    match v
    case Bool(b) => b
    case Int(i) => i != 0
    case Flt(r) => r != 0.0
    case _ => false
  }

  predicate ValueEquals(a: Value, b: Value) {
    match (a, b)
    case (Bool(x), Bool(y)) => x == y
    case (Int(x), Int(y)) => x == y
    case (Flt(x), Flt(y)) => x == y
    case _ => false
  }

  /** What a binary instruction leaves in its destination register. A dud stands for
      "no value"; only division and remainder turn it into a runtime error. */
  function Apply(op: Arith, a: Value, b: Value): Value {
    match (op, a, b)
    case (Mul, Int(x), Int(y)) => Int(Wrap32(x * y))
    case (Mul, Flt(x), Flt(y)) => Flt(x * y)
    case (Add, Int(x), Int(y)) => Int(Wrap32(x + y))
    case (Add, Flt(x), Flt(y)) => Flt(x + y)
    case (Sub, Int(x), Int(y)) => Int(Wrap32(x - y))
    case (Sub, Flt(x), Flt(y)) => Flt(x - y)
    case (Div, Int(x), Int(y)) => if y == 0 then Dud else Int(Wrap32(TruncDiv(x, y)))
    case (Div, Flt(x), Flt(y)) => if y == 0.0 then Dud else Flt(x / y)
    case (Mod, Int(x), Int(y)) => if y == 0 then Dud else Int(TruncMod(x, y))
    case (Equ, _, _) => Bool(ValueEquals(a, b))
    case (Neq, _, _) => Bool(!ValueEquals(a, b))
    case (Lt, Int(x), Int(y)) => Bool(x < y)
    case (Lt, Flt(x), Flt(y)) => Bool(x < y)
    case (Gt, Int(x), Int(y)) => Bool(x > y)
    case (Gt, Flt(x), Flt(y)) => Bool(x > y)
    case (Lte, Int(x), Int(y)) => Bool(x <= y)
    case (Lte, Flt(x), Flt(y)) => Bool(x <= y)
    case (Gte, Int(x), Int(y)) => Bool(x >= y)
    case (Gte, Flt(x), Flt(y)) => Bool(x >= y)
    case (Lt, _, _) => Bool(false)
    case (Gt, _, _) => Bool(false)
    case (Lte, _, _) => Bool(false)
    case (Gte, _, _) => Bool(false)
    case _ => Dud
  }

  /** Division or remainder with mismatched operands or a zero divisor. */
  predicate MathFails(op: Arith, a: Value, b: Value) {
    op in {Div, Mod} && Apply(op, a, b) == Dud
  }
}
