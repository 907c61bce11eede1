/** The step-level intermediate form (src/ir/steps.hpp). */
module Ir {
  import opened Values

  datatype Tag = Immediate | Constant | Temp

  datatype Addr = Addr(tag: Tag, id: int)

  datatype Meta =
    | Pass
    | BeginWhile | EndWhile | MarkWhileCheck | MarkBreak | MarkContinue
    | BeginIfElse | EndIfElse | MarkIfElseCheck | MarkIfElseAlt

  datatype UnaryOp = MakeSeq | FrzSeqObj | Jump | Ret

  datatype BinaryOp = JumpElse | CallOp | NativeCall

  datatype TernaryOp = SeqObjPush | SeqObjGet

  datatype Step =
    | TacMove(dest: Addr, src: Addr)
    | TacNeg(dest: Addr, src: Addr)
    | TacBinary(dest: Addr, lhs: Addr, rhs: Addr, op: Arith)
    | OperNonary(meta: Meta)
    | OperUnary(arg0: Addr, unary: UnaryOp)
    | OperBinary(arg0: Addr, arg1: Addr, binary: BinaryOp)
    | OperTernary(arg0: Addr, arg1: Addr, arg2: Addr, ternary: TernaryOp)

  function Imm(id: int): Addr { Addr(Immediate, id) }

  function TempAt(id: int): Addr { Addr(Temp, id) }
}
