/** Side conditions that the code needs, each with exactly when it is met. */
module Conditions {
  import opened Values
  import opened Syntax
  import opened ExprLowering
  import opened Fragment
  import opened LoweringFacts
  import opened Compositional
  import opened CompileFacts
  import opened Semantics
  import opened SimulationBase
  import opened Windows
  import Ir
  import M = Machine

  // ---------------------------------------------------------------- call windows

  /** The registers that receive the arguments of a call. */
  function ArgRegisters(nm: Names, args: seq<Expr>, pool: Pool, n: int): (r: seq<int>)
    ensures |r| == |args|
  {
    if args == [] then []
    else
      var h := LowerExpr(nm, args[0], pool, n);
      [h.next] + ArgRegisters(nm, args[1..], h.pool, h.next + 1)
  }

  /** Only literals and variables need no temporary. */
  lemma AtomExactly(sg: Signature, e: Expr, scope: set<string>, n: nat, lim: nat)
    requires OkExpr(sg, e, scope, n, lim)
    ensures Temps(e) == 0 <==> IsAtom(e)
  {
    match e
    case Call(callee, args) =>
      assert Temps(callee) == 0;
      ArgTempsAtLeast(args);
    case _ =>
  }

  lemma {:induction false} ArgTempsExactly(sg: Signature, args: seq<Expr>, scope: set<string>, n: nat, lim: nat)
    requires OkArgs(sg, args, scope, n, lim)
    ensures ArgTemps(args) >= |args| && (ArgTemps(args) == |args| <==> Atoms(args))
    decreases args
  {
    hide OkExpr, Temps, IsAtom;
    if args != [] {
      AtomExactly(sg, args[0], scope, n, lim);
      ArgTempsExactly(sg, args[1..], scope, n + Temps(args[0]) + 1, lim);
    }
  }

  /** Where the arguments go: the last one always to the last temporary, and each at least as
      far from the end as it should be. */
  lemma {:induction false} ArgRegistersFacts(
    sg: Signature, nm: Names, args: seq<Expr>, pool: Pool, scope: set<string>, n: nat, lim: nat)
    requires NamesOk(sg.fs) && GoodPool(sg.fs, pool) && GoodNames(sg, nm, n) && scope <= nm.locals.Keys
    requires OkArgs(sg, args, scope, n, lim) && args != []
    ensures var r := ArgRegisters(nm, args, pool, n);
            && r[0] == n + Temps(args[0]) && r[|args| - 1] == n + ArgTemps(args) - 1
            && (Atoms(args[1..]) ==> forall j | 0 <= j < |args| :: r[j] == n + ArgTemps(args) - |args| + j)
    decreases args
  {
    hide OkExpr, LowerExpr, Temps, IsAtom, GoodPool, NamesOk;
    LowerSucceeds(sg, nm, args[0], pool, scope, n, lim);
    var h := LowerExpr(nm, args[0], pool, n);
    var r := ArgRegisters(nm, args, pool, n);
    if args[1..] == [] {
    } else {
      GoodNamesGrow(sg, nm, n, h.next + 1);
      ArgRegistersFacts(sg, nm, args[1..], h.pool, scope, h.next + 1, lim);
      var rest := ArgRegisters(nm, args[1..], h.pool, h.next + 1);
      assert forall j | 1 <= j < |args| :: r[j] == rest[j - 1];
      if Atoms(args[1..]) {
        ArgTempsExactly(sg, args[1..], scope, h.next + 1, lim);
      }
    }
  }

  /** The callee's first registers are exactly the evaluated arguments, in order, if and only
      if every argument after the first is a literal or a variable and the frame top is the
      last argument's register. */
  lemma CallWindowExactly(
    sg: Signature, nm: Names, args: seq<Expr>, pool: Pool, scope: set<string>, n: nat, lim: nat, s: M.State, i: M.Instr)
    requires NamesOk(sg.fs) && GoodPool(sg.fs, pool) && GoodNames(sg, nm, n) && scope <= nm.locals.Keys
    requires OkArgs(sg, args, scope, n, lim) && args != [] && i.b.id == |args|
    ensures (forall j | 0 <= j < |args| :: M.StepCall(s, i).rbp + j == s.rbp + ArgRegisters(nm, args, pool, n)[j])
            <==> Atoms(args[1..]) && s.rft == s.rbp + n + ArgTemps(args) - 1
  {
    hide OkArgs, ArgRegisters, GoodPool, NamesOk, GoodNames;
    ArgRegistersFacts(sg, nm, args, pool, scope, n, lim);
    ArgTempsOfRest(sg, args, scope, n, lim);
    var r := ArgRegisters(nm, args, pool, n);
    if forall j | 0 <= j < |args| :: M.StepCall(s, i).rbp + j == s.rbp + r[j] {
      assert M.StepCall(s, i).rbp + 0 == s.rbp + r[0];
      assert M.StepCall(s, i).rbp + (|args| - 1) == s.rbp + r[|args| - 1];
    }
  }

  lemma ArgTempsOfRest(sg: Signature, args: seq<Expr>, scope: set<string>, n: nat, lim: nat)
    requires OkArgs(sg, args, scope, n, lim) && args != []
    ensures ArgTemps(args) == Temps(args[0]) + 1 + ArgTemps(args[1..])
    ensures ArgTemps(args[1..]) >= |args| - 1 && (ArgTemps(args[1..]) == |args| - 1 <==> Atoms(args[1..]))
  {
    hide OkExpr, Temps;
    ArgTempsExactly(sg, args[1..], scope, n + Temps(args[0]) + 1, lim);
  }

  // ---------------------------------------------------------------- literal conditions

  /** A conditional jump on a literal reads the register with the constant's index: it takes
      the branch that the literal asks for if and only if that register happens to hold a
      value of the same truth. */
  lemma LiteralConditionExactly(code: M.Code, s: M.State, id: int, target: int)
    requires M.Running(s) && Placed(code, s.fn, s.ip, [JumpElseTo(Ir.Addr(Ir.Constant, id), target)])
    requires 0 <= id < |code.consts| && target != s.ip + 1
    ensures M.Step(code, s).ip == (if Truthy(code.consts[id]) then s.ip + 1 else target)
            <==> Truthy(M.Read(s.mem, s.rbp + id)) == Truthy(code.consts[id])
  {
    PlacedOne(code, s, JumpElseTo(Ir.Addr(Ir.Constant, id), target));
  }

  // ---------------------------------------------------------------- unary minus

  /** Negating an expression adds one instruction, on the register with the number of the
      operand's address, whatever kind of address it is; the result is read from the same
      address. */
  lemma NegationLowers(nm: Names, e: Expr, pool: Pool, n: int)
    requires LowerExpr(nm, e, pool, n).addr.Some?
    ensures var r, m := LowerExpr(nm, e, pool, n), LowerExpr(nm, Unary(Negate, e), pool, n);
            && m.addr == r.addr && m.pool == r.pool && m.next == r.next && m.errors == r.errors
            && |TranslateAll(m.steps)| == |TranslateAll(r.steps)| + 1
            && TranslateAll(m.steps)[..|TranslateAll(r.steps)|] == TranslateAll(r.steps)
            && var i := TranslateAll(m.steps)[|TranslateAll(r.steps)|];
            i.op == M.Neg && i.a.id == r.addr.value.id
  {
    var r := LowerExpr(nm, e, pool, n);
    var step := Ir.TacNeg(r.addr.value, r.addr.value);
    assert LowerExpr(nm, Unary(Negate, e), pool, n).steps == r.steps + [step];
    hide LowerExpr, TranslateAll;
    TranslateAppend(r.steps, [step]);
    TranslateOne(step);
  }

  /** That instruction stops the run exactly on a boolean, which it flips first; any other value
      stays as it is. */
  lemma NegationExactly(code: M.Code, s: M.State)
    requires M.Running(s) && M.AtInstr(code, s) && code.chunks[s.fn][s.ip].op == M.Neg
    ensures var cell := s.rbp + code.chunks[s.fn][s.ip].a.id;
            var t := M.Step(code, s);
            if M.Read(s.mem, cell).Bool?
            then t.status == M.ArgError && M.Read(t.mem, cell) == Bool(M.Read(s.mem, cell) == Bool(false))
                 && forall c | c != cell :: M.Read(t.mem, c) == M.Read(s.mem, c)
            else t == s.(ip := s.ip + 1)
  {
  }

  // ---------------------------------------------------------------- native calls and accesses

  /** A call of a registered procedure, whatever else has its name, ends in a native call with the
      id of the procedure and the number of arguments. */
  lemma NativeCallLowers(nm: Names, f: string, args: seq<Expr>, pool: Pool, n: int)
    requires f in nm.natives && LowerArgs(nm, args, pool, n).addr.Some?
    ensures var r := LowerExpr(nm, Call(Literal(TkIdent, f), args), pool, n);
            && r.addr.Some? && r.addr.value == Ir.TempAt(r.next - |args|)
            && TranslateAll(r.steps) == TranslateAll(LowerArgs(nm, args, pool, n).steps)
                 + [M.Instr(M.NativeCall, M.Arg(M.ImmMode, nm.natives[f]), M.Arg(M.ImmMode, |args|), NO_ARG)]
  {
    hide LowerExpr, LowerArgs, TranslateAll;
    var a := LowerArgs(nm, args, pool, n);
    var step := Ir.OperBinary(Ir.Imm(nm.natives[f]), Ir.Imm(|args|), Ir.NativeCall);
    NativeCallSteps(nm, f, args, pool, n);
    TranslateAppend(a.steps, [step]);
    TranslateOne(step);
  }

  lemma NativeCallSteps(nm: Names, f: string, args: seq<Expr>, pool: Pool, n: int)
    requires f in nm.natives && LowerArgs(nm, args, pool, n).addr.Some?
    ensures var a := LowerArgs(nm, args, pool, n);
            LowerExpr(nm, Call(Literal(TkIdent, f), args), pool, n) ==
              Lowered(a.steps + [Ir.OperBinary(Ir.Imm(nm.natives[f]), Ir.Imm(|args|), Ir.NativeCall)],
                      Some(Ir.TempAt(a.next - |args|)), a.pool, a.next, a.errors)
  {
    var callee := Literal(TkIdent, f);
    NativeName(nm, f, pool, n);
    hide LowerArgs, LiteralValue, Lookup, Intern, LowerItems;
    assert [] + LowerArgs(nm, args, pool, n).steps == LowerArgs(nm, args, pool, n).steps;
  }

  lemma NativeName(nm: Names, f: string, pool: Pool, n: int)
    requires f in nm.natives
    ensures LowerExpr(nm, Literal(TkIdent, f), pool, n) == Lowered([], Some(Ir.Addr(Ir.Constant, nm.natives[f])), pool, n, 0)
  {
  }

  lemma AccessSteps(nm: Names, left: Expr, right: Expr, pool: Pool, n: int)
    requires var l := LowerExpr(nm, left, pool, n); l.addr.Some? && LowerExpr(nm, right, l.pool, l.next).addr.Some?
    ensures var l := LowerExpr(nm, left, pool, n);
            var r := LowerExpr(nm, right, l.pool, l.next);
            LowerExpr(nm, Binary(Access, left, right), pool, n) ==
              Lowered(l.steps + r.steps + [Ir.OperTernary(Ir.TempAt(r.next), l.addr.value, r.addr.value, Ir.SeqObjGet)],
                      Some(Ir.TempAt(r.next)), r.pool, r.next + 1, l.errors + r.errors)
  {
    hide LowerArgs, LiteralValue, Lookup, Intern, LowerItems;
  }

  /** An access evaluates sequence and position in this order and puts the item into a fresh
      register. */
  lemma AccessLowers(nm: Names, left: Expr, right: Expr, pool: Pool, n: int)
    requires var l := LowerExpr(nm, left, pool, n); l.addr.Some? && LowerExpr(nm, right, l.pool, l.next).addr.Some?
    ensures var l := LowerExpr(nm, left, pool, n);
            var r := LowerExpr(nm, right, l.pool, l.next);
            var m := LowerExpr(nm, Binary(Access, left, right), pool, n);
            && m.addr == Some(Ir.TempAt(r.next)) && m.next == r.next + 1 && m.pool == r.pool
            && TranslateAll(m.steps) == TranslateAll(l.steps) + TranslateAll(r.steps)
                 + [M.Instr(M.SeqObjGet, Translate(Ir.TempAt(r.next)), Translate(l.addr.value), Translate(r.addr.value))]
  {
    var l := LowerExpr(nm, left, pool, n);
    var r := LowerExpr(nm, right, l.pool, l.next);
    hide LowerExpr, TranslateAll;
    var step := Ir.OperTernary(Ir.TempAt(r.next), l.addr.value, r.addr.value, Ir.SeqObjGet);
    AccessSteps(nm, left, right, pool, n);
    TranslateAppend(l.steps, r.steps);
    TranslateAppend(l.steps + r.steps, [step]);
    TranslateOne(step);
  }

  // ---------------------------------------------------------------- calls without arguments

  /** A call without arguments lowers to the call alone; its result is read from the next
      temporary, which is not allocated. */
  lemma NoArguments(sg: Signature, nm: Names, pool: Pool, f: string, n: int)
    requires GoodPool(sg.fs, pool) && nm.natives.Keys == sg.natives && f !in sg.natives && FindFunction(sg.fs, f) < |sg.fs|
    ensures LowerExpr(nm, Call(Literal(TkIdent, f), []), pool, n) ==
              Lowered([Ir.OperBinary(Ir.Imm(FindFunction(sg.fs, f)), Ir.Imm(0), Ir.CallOp)], Some(Ir.TempAt(n)), pool, n, 0)
  {
    hide FindFunction;
    LookupFunction(sg, nm, pool, f);
    var e := Call(Literal(TkIdent, f), []);
    assert LowerExpr(nm, e.callee, pool, n) == Lowered([], Lookup(nm, pool, f), pool, n, 0);
    assert LowerArgs(nm, [], pool, n) == Lowered([], Some(Ir.Imm(0)), pool, n, 0);
  }

  /** Where the callee of a call without arguments leaves its result, and what the caller reads
      after the matching return, for any code in between: the two registers are the same if and
      only if the frame top is the last allocated temporary. Above that, the caller reads what
      its register held before the call. */
  lemma NoArgumentsExactly(code: M.Code, c: M.State, k: nat, n: nat)
    requires StepsUp(code, c) && code.chunks[c.fn][c.ip].op == M.Call && code.chunks[c.fn][c.ip].b.id == 0
    requires var s := M.Step(code, c); Inside(code, s, k) && |M.Steps(code, s, k).frames| < |s.frames|
    ensures var t, base := M.Steps(code, c, k + 1), c.rft + 1;
            var v, read := M.Read(t.mem, base), M.Fetch(code, t, Translate(Ir.TempAt(n)));
            && k > 0 && var r := M.Steps(code, c, k);
            && M.AtInstr(code, r) && code.chunks[r.fn][r.ip].op == M.Ret && M.Fetch(code, r, code.chunks[r.fn][r.ip].a) == M.Found(v)
            && (t.rbp + n == base <==> c.rft == c.rbp + n - 1)
            && (c.rft == c.rbp + n - 1 ==> read == M.Found(v))
            && (c.rft >= c.rbp + n ==> read == M.Found(M.Read(c.mem, c.rbp + n)))
  {
    CallReturns(code, c, k);
    hide M.Steps, Inside, StepsUp;
  }

  ghost predicate Writes(code: M.Chunk, reg: int) {
    exists q :: 0 <= q < |code| && WritesRegister(code[q].op) && code[q].a.id == reg
  }

  lemma WritesConcat(a: M.Chunk, b: M.Chunk, reg: int)
    ensures Writes(a + b, reg) <==> Writes(a, reg) || Writes(b, reg)
  {
    if Writes(a, reg) {
      var q :| 0 <= q < |a| && WritesRegister(a[q].op) && a[q].a.id == reg;
      assert (a + b)[q] == a[q];
    }
    if Writes(b, reg) {
      var q :| 0 <= q < |b| && WritesRegister(b[q].op) && b[q].a.id == reg;
      assert (a + b)[|a| + q] == b[q];
    }
  }

  lemma WritesOne(i: M.Instr, reg: int)
    ensures Writes([i], reg) <==> WritesRegister(i.op) && i.a.id == reg
  {
    if WritesRegister(i.op) && i.a.id == reg {
      assert [i][0] == i;
    }
  }

  /** Steps in three groups. */
  lemma WritesPieces(a: seq<Ir.Step>, c: Ir.Step, b: seq<Ir.Step>, reg: int)
    requires |TranslateStep(c)| == 1
    ensures var i := TranslateStep(c)[0];
            Writes(TranslateAll(a + [c] + b), reg)
            <==> Writes(TranslateAll(a), reg) || (WritesRegister(i.op) && i.a.id == reg) || Writes(TranslateAll(b), reg)
  {
    hide Writes, TranslateAll, TranslateStep;
    TranslateAppend(a + [c], b);
    TranslateAppend(a, [c]);
    TranslateOne(c);
    WritesConcat(TranslateAll(a) + TranslateStep(c), TranslateAll(b), reg);
    WritesConcat(TranslateAll(a), TranslateStep(c), reg);
    assert TranslateStep(c) == [TranslateStep(c)[0]];
    WritesOne(TranslateStep(c)[0], reg);
  }

  /** An operand whose result sits in register `n`, such as a call without arguments lowered at
      counter `n`, survives the evaluation of the other operand if and only if that operand is
      a literal or a variable: any other one begins by using register `n`. */
  lemma {:induction false} OperandKeptExactly(sg: Signature, e: Expr, nm: Names, pool: Pool, n: nat, lim: nat)
    requires Prepared(sg, nm, pool, n) && OkExpr(sg, e, nm.locals.Keys, n, lim)
    ensures Writes(TranslateAll(LowerExpr(nm, e, pool, n).steps), n) <==> !IsAtom(e)
    decreases e, 1
  {
    hide Prepared, Writes;
    match e
    case Literal(_, _) => assert !Writes([], n) by { NothingWritten(n); }
    case Sequence(_, _) => SequenceWrites(sg, e, nm, pool, n, lim);
    case Binary(_, _, _) => BinaryWrites(sg, e, nm, pool, n, lim);
    case Call(_, _) => CallWrites(sg, e, nm, pool, n, lim);
    case _ =>
  }

  lemma NothingWritten(reg: int)
    ensures !Writes([], reg)
  {
  }

  lemma SequenceWrites(sg: Signature, e: Expr, nm: Names, pool: Pool, n: nat, lim: nat)
    requires e.Sequence? && Prepared(sg, nm, pool, n) && OkExpr(sg, e, nm.locals.Keys, n, lim)
    ensures Writes(TranslateAll(LowerExpr(nm, e, pool, n).steps), n)
  {
    hide Writes, TranslateAll, LowerItems, OkItems, NamesOk, GoodPool, GoodNames, NoMarkers;
    GoodNamesGrow(sg, nm, n, n + 1);
    LowerItemsSucceeds(sg, nm, e.items, Ir.TempAt(n), pool, nm.locals.Keys, n + 1, lim);
    var q := LowerItems(nm, e.items, Ir.TempAt(n), pool, n + 1);
    var made, frozen := Ir.OperUnary(Ir.TempAt(n), Ir.MakeSeq), Ir.OperUnary(Ir.TempAt(n), Ir.FrzSeqObj);
    assert [] + [made] == [made];
    WritesPieces([], made, if e.isTuple then q.steps + [frozen] else q.steps, n);
    assert [made] + q.steps + [frozen] == [made] + (q.steps + [frozen]);
  }

  lemma {:induction false} BinaryWrites(sg: Signature, e: Expr, nm: Names, pool: Pool, n: nat, lim: nat)
    requires e.Binary? && Prepared(sg, nm, pool, n) && OkExpr(sg, e, nm.locals.Keys, n, lim)
    ensures Writes(TranslateAll(LowerExpr(nm, e, pool, n).steps), n)
    decreases e, 0
  {
    hide Writes, Prepared, TranslateAll, NoMarkers, ValidAddr, GoodPool;
    PrepareNext(sg, e.left, nm, pool, n, lim);
    var lo := LowerExpr(nm, e.left, pool, n);
    PrepareNext(sg, e.right, nm, lo.pool, lo.next, lim);
    var ro := LowerExpr(nm, e.right, lo.pool, lo.next);
    OperandKeptExactly(sg, e.left, nm, pool, n, lim);
    AtomExactly(sg, e.left, nm.locals.Keys, n, lim);
    OperandKeptExactly(sg, e.right, nm, lo.pool, lo.next, lim);
    AtomExactly(sg, e.right, nm.locals.Keys, lo.next, lim);
    var step := Ir.TacBinary(Ir.TempAt(ro.next), lo.addr.value, ro.addr.value, e.bop.op);
    TranslateAppend(lo.steps, ro.steps);
    WritesConcat(TranslateAll(lo.steps), TranslateAll(ro.steps), n);
    WritesPieces(lo.steps + ro.steps, step, [], n);
    assert lo.steps + ro.steps + [step] + [] == lo.steps + ro.steps + [step];
  }

  lemma {:induction false} CallWrites(sg: Signature, e: Expr, nm: Names, pool: Pool, n: nat, lim: nat)
    requires e.Call? && Prepared(sg, nm, pool, n) && OkExpr(sg, e, nm.locals.Keys, n, lim)
    ensures Writes(TranslateAll(LowerExpr(nm, e, pool, n).steps), n)
    decreases e, 0
  {
    hide Writes, Prepared, TranslateAll, LowerExpr, NoMarkers, ValidAddr, GoodPool, FindFunction;
    var arg := e.args[0];
    FirstArgument(sg, e, nm, pool, n, lim);
    PrepareNext(sg, arg, nm, pool, n, lim);
    OperandKeptExactly(sg, arg, nm, pool, n, lim);
    AtomExactly(sg, arg, nm.locals.Keys, n, lim);
    var h := LowerExpr(nm, arg, pool, n);
    var move := Ir.TacMove(Ir.TempAt(h.next), h.addr.value);
    var all := LowerExpr(nm, e, pool, n).steps;
    WritesPieces(h.steps, move, all[|h.steps| + 1..], n);
    assert all == h.steps + [move] + all[|h.steps| + 1..];
  }

  /** The code of a call begins with its first argument and the move of it. */
  lemma FirstArgument(sg: Signature, e: Expr, nm: Names, pool: Pool, n: nat, lim: nat)
    requires e.Call? && Prepared(sg, nm, pool, n) && OkExpr(sg, e, nm.locals.Keys, n, lim)
    ensures OkExpr(sg, e.args[0], nm.locals.Keys, n, lim)
    ensures var h := LowerExpr(nm, e.args[0], pool, n);
            h.addr.Some? && h.steps + [Ir.TacMove(Ir.TempAt(h.next), h.addr.value)] <= LowerExpr(nm, e, pool, n).steps
  {
    hide LowerExpr, NamesOk, GoodPool, GoodNames, FindFunction, NoMarkers, ValidAddr;
    LowerSucceeds(sg, nm, e.args[0], pool, nm.locals.Keys, n, lim);
    LowerCall(sg, nm, e, pool, nm.locals.Keys, n, lim);
    LowerArgsSucceeds(sg, nm, e.args, pool, nm.locals.Keys, n, lim);
  }
}
