/** The lowering as the compiler runs it (src/ir/convert_ast.cpp): a walk of the syntax tree
    that updates tables, counters, the newest basic block and the queue of pending links.
    Every method is proved to compute what the lowering functions say. */
module AstConversion {
  import opened Values
  import opened Syntax
  import opened ExprLowering
  import opened StmtLowering
  import opened Cfg
  import opened ControlFlowGraph
  import opened Compiler
  import opened Ir

  /** Steps of every block, links aside. */
  function Bare(blocks: seq<BasicBlock>): (r: seq<Block>)
    ensures |r| == |blocks| && forall i | 0 <= i < |r| :: r[i] == blocks[i].steps
  {
    seq(|blocks|, i requires 0 <= i < |blocks| => blocks[i].steps)
  }

  /** All that the conversion of one function body reads and writes. */
  datatype View = View(blocks: seq<Block>, links: seq<Link>, nm: Names, pool: Pool, next: int, errors: nat)

  /** The state after lowering a fragment from `v`. */
  function Then(v: View, e: Emitted): (r: View)
    requires v.blocks != [] && e.blocks != []
    ensures r.blocks != []
  {
    View(Glue(v.blocks, e.blocks), v.links + e.links, e.nm, e.pool, e.next, v.errors + e.errors)
  }

  function AddSteps(v: View, steps: seq<Ir.Step>): (r: View)
    requires v.blocks != []
    ensures r.blocks != []
  {
    v.(blocks := Glue(v.blocks, [steps]))
  }

  /** The state after lowering an expression from `v`. */
  function ThenExpr(v: View, r: Lowered): (w: View)
    requires v.blocks != []
    ensures w.blocks != []
  {
    AddSteps(v, r.steps).(pool := r.pool, next := r.next, errors := v.errors + r.errors)
  }

  function ExprAt(v: View, e: Expr): Lowered {
    LowerExpr(v.nm, e, v.pool, v.next)
  }

  function StmtAt(v: View, s: Stmt): (e: Emitted)
    ensures e.blocks != []
  {
    LowerStmt(s, v.nm, v.pool, v.next, |v.blocks| - 1)
  }

  function BlockAt(v: View, ss: seq<Stmt>): (e: Emitted)
    ensures e.blocks != []
  {
    LowerBlock(ss, v.nm, v.pool, v.next, |v.blocks| - 1)
  }

  function StmtsAt(v: View, ss: seq<Stmt>): (e: Emitted)
    ensures e.blocks != []
  {
    LowerStmts(ss, v.nm, v.pool, v.next, |v.blocks| - 1)
  }

  lemma AddStepsTwice(v: View, a: seq<Ir.Step>, b: seq<Ir.Step>)
    requires v.blocks != []
    ensures AddSteps(AddSteps(v, a), b) == AddSteps(v, a + b)
    ensures AddSteps(v, []) == v
  {
    GlueAssoc(v.blocks, [a], [b]);
    GlueUnit(v.blocks);
    assert Glue([a], [b]) == [a + b];
  }

  lemma LambdaAt(v: View)
    requires v.blocks != []
    ensures ExprAt(v, Lambda).addr.None? && ThenExpr(v, ExprAt(v, Lambda)) == v
  {
    AddStepsTwice(v, [], []);
  }

  lemma ThenStart(v: View)
    requires v.blocks != []
    ensures Then(v, Start(v.nm, v.pool, v.next)) == v
  {
    GlueUnit(v.blocks);
    assert v.links + [] == v.links;
  }

  class Conversion {
    const natives: map<string, int>
    var globals: map<string, Addr>
    var locals: map<string, Addr>
    var links: seq<Link>
    var graphs: seq<Graph>
    var graph: FlowGraph
    var consts: seq<Value>
    var mainId: int
    var errors: nat
    var nextFun: int
    var next: int

    constructor (natives: map<string, int>)
      ensures this.natives == natives && globals == map[] && locals == map[] && links == [] && graphs == []
      ensures consts == [] && mainId == -1 && errors == 0 && nextFun == 0 && next == 0 && fresh(graph)
    {
      this.natives := natives;
      globals, locals, links, graphs, consts := map[], map[], [], [], [];
      mainId, errors, nextFun, next := -1, 0, 0, 0;
      graph := new FlowGraph();
    }

    /** A body is being lowered: there is a newest block, and no link has been applied. */
    ghost predicate Open()
      reads this, graph
    {
      graph.blocks != [] && forall k | 0 <= k < |graph.blocks| :: graph.blocks[k] == Unlinked(graph.blocks[k].steps)
    }

    ghost function Now(): (v: View)
      requires Open()
      reads this, graph
      ensures v.blocks != []
    {
      View(Bare(graph.blocks), links, Names(natives, locals), Pool(globals, consts), next, errors)
    }

    /** Parts of the state that lowering a body leaves alone. */
    twostate predicate Kept()
      reads this
    {
      graph == old(graph) && graphs == old(graphs) && mainId == old(mainId) && nextFun == old(nextFun)
    }

    method ReportError()
      modifies this`errors
      ensures errors == old(errors) + 1
    {
      errors := errors + 1;
    }

    method GenTemp() returns (aa: Addr)
      modifies this`next
      ensures aa == TempAt(old(next)) && next == old(next) + 1
    {
      aa := TempAt(next);
      next := next + 1;
    }

    method Append(step: Ir.Step)
      requires Open()
      modifies graph
      ensures Open() && Now() == AddSteps(old(Now()), [step])
    {
      ghost var before := Bare(graph.blocks);
      graph.Append(step);
      assert Bare(graph.blocks) == Glue(before, [[step]]);
    }

    /** Constants are interned by lexeme, in the table that also holds the functions. */
    method ResolveConstant(lexeme: string, v: Value) returns (aa: Addr)
      modifies this`globals, this`consts
      ensures (aa, Pool(globals, consts)) == Intern(old(Pool(globals, consts)), lexeme, v)
    {
      if lexeme in globals {
        return globals[lexeme];
      }
      aa := Addr(Constant, |consts|);
      consts := consts + [v];
      globals := globals[lexeme := aa];
    }

    method LookupName(name: string) returns (aa: Option<Addr>)
      ensures aa == Lookup(Names(natives, locals), Pool(globals, consts), name)
    {
      if name in natives {
        aa := Some(Addr(Constant, natives[name]));
      } else if name in globals {
        aa := Some(globals[name]);
      } else if name in locals {
        aa := Some(locals[name]);
      } else {
        aa := None;
      }
    }

    method RecordLocal(name: string, aa: Addr) returns (ok: bool)
      modifies this`locals
      ensures ok <==> name !in old(locals)
      ensures locals == if ok then old(locals)[name := aa] else old(locals)
    {
      ok := name !in locals;
      if ok {
        locals := locals[name := aa];
      }
    }

    method EmitLiteral(e: Expr) returns (aa: Option<Addr>)
      requires Open() && e.Literal?
      modifies this, graph
      ensures Kept() && Open()
      ensures aa == ExprAt(old(Now()), e).addr && Now() == ThenExpr(old(Now()), ExprAt(old(Now()), e))
    {
      AddStepsTwice(Now(), [], []);
      match e.kind
      case TkIdent => aa := LookupName(e.lexeme);
      case TkOther =>
        ReportError();
        aa := None;
      case _ =>
        var c := ResolveConstant(e.lexeme, LiteralValue(e.kind, e.lexeme));
        aa := Some(c);
    }

    method EmitExpr(e: Expr) returns (aa: Option<Addr>)
      requires Open()
      modifies this, graph
      ensures Kept() && Open()
      ensures aa == ExprAt(old(Now()), e).addr && Now() == ThenExpr(old(Now()), ExprAt(old(Now()), e))
      decreases e, 1
    {
      hide ExprAt, ThenExpr;
      match e
      case Literal(_, _) => aa := EmitLiteral(e);
      case Sequence(_, _) => aa := EmitSequence(e);
      case Call(_, _) => aa := EmitCall(e);
      case Unary(_, _) => aa := EmitUnary(e);
      case Binary(_, _, _) => aa := EmitBinary(e);
      case Assign(_, _) => aa := EmitAssign(e);
      case Lambda =>
        LambdaAt(Now());
        aa := None;
    }

    method EmitAssign(e: Expr) returns (aa: Option<Addr>)
      requires Open() && e.Assign?
      modifies this, graph
      ensures Kept() && Open()
      ensures aa == ExprAt(old(Now()), e).addr && Now() == ThenExpr(old(Now()), ExprAt(old(Now()), e))
      decreases e, 0
    {
      ghost var v := Now();
      ghost var l := ExprAt(v, e.target);
      ghost var r := LowerExpr(v.nm, e.value, l.pool, l.next);
      var lhs := EmitExpr(e.target);
      var setting := EmitExpr(e.value);
      AddStepsTwice(v, l.steps, r.steps);
      if lhs.None? || setting.None? {
        return None;
      }
      var move := TacMove(lhs.value, setting.value);
      Append(move);
      AddStepsTwice(v, l.steps + r.steps, [move]);
      aa := lhs;
    }

    method EmitUnary(e: Expr) returns (aa: Option<Addr>)
      requires Open() && e.Unary?
      modifies this, graph
      ensures Kept() && Open()
      ensures aa == ExprAt(old(Now()), e).addr && Now() == ThenExpr(old(Now()), ExprAt(old(Now()), e))
      decreases e, 0
    {
      ghost var v := Now();
      ghost var r := LowerExpr(v.nm, e.inner, v.pool, v.next);
      var temp := EmitExpr(e.inner);
      if temp.None? {
        return None;
      }
      if e.uop == Negate {
        var negate := TacNeg(temp.value, temp.value);
        Append(negate);
        AddStepsTwice(v, r.steps, [negate]);
        return temp;
      }
      ReportError();
      aa := None;
    }

    method EmitBinary(e: Expr) returns (aa: Option<Addr>)
      requires Open() && e.Binary?
      modifies this, graph
      ensures Kept() && Open()
      ensures aa == ExprAt(old(Now()), e).addr && Now() == ThenExpr(old(Now()), ExprAt(old(Now()), e))
      decreases e, 0
    {
      hide LowerExpr, Intern, Lookup, Glue;
      ghost var v := Now();
      ghost var l := LowerExpr(v.nm, e.left, v.pool, v.next);
      ghost var r := LowerExpr(v.nm, e.right, l.pool, l.next);
      BinaryIs(v.nm, e, v.pool, v.next);
      var lhs := EmitExpr(e.left);
      var rhs := EmitExpr(e.right);
      AddStepsTwice(v, l.steps, r.steps);
      if lhs.None? || rhs.None? {
        return None;
      }
      match e.bop
      case Arith(op) =>
        var dest := GenTemp();
        var step := TacBinary(dest, lhs.value, rhs.value, op);
        Append(step);
        AddStepsTwice(v, l.steps + r.steps, [step]);
        aa := Some(dest);
      case Access =>
        var dest := GenTemp();
        var step := OperTernary(dest, lhs.value, rhs.value, SeqObjGet);
        Append(step);
        AddStepsTwice(v, l.steps + r.steps, [step]);
        aa := Some(dest);
      case _ =>
        ReportError();
        aa := None;
    }

    method EmitSequence(e: Expr) returns (aa: Option<Addr>)
      requires Open() && e.Sequence?
      modifies this, graph
      ensures Kept() && Open()
      ensures aa == ExprAt(old(Now()), e).addr && Now() == ThenExpr(old(Now()), ExprAt(old(Now()), e))
      decreases e, 0
    {
      hide LowerExpr, Intern, Lookup, Glue;
      ghost var v := Now();
      SequenceIs(v.nm, e, v.pool, v.next);
      var dest := GenTemp();
      var make := OperUnary(dest, MakeSeq);
      Append(make);
      ghost var v1 := Now();
      ghost var all := LowerItems(v.nm, e.items, dest, v.pool, v.next + 1);
      AddStepsTwice(v1, [], []);
      AddStepsTwice(v, [make], all.steps);
      var i := 0;
      while i < |e.items|
        invariant 0 <= i <= |e.items| && Kept() && Open()
        invariant ThenItems(v1, e.items, dest) == ThenItems(Now(), e.items[i..], dest)
        invariant all.addr == LowerItems(v.nm, e.items[i..], dest, Now().pool, next).addr
        invariant Now().nm == v.nm
      {
        ghost var w := Now();
        ghost var h := LowerExpr(w.nm, e.items[i], w.pool, w.next);
        assert e.items[i..][0] == e.items[i] && e.items[i..][1..] == e.items[i + 1..];
        var item := EmitExpr(e.items[i]);
        if item.None? {
          return None;
        }
        var push := OperTernary(dest, item.value, Imm(1), SeqObjPush);
        Append(push);
        ItemsStep(w, e.items[i..], dest, Now());
        i := i + 1;
      }
      AddStepsTwice(Now(), [], []);
      if e.isTuple {
        var freeze := OperUnary(dest, FrzSeqObj);
        Append(freeze);
        AddStepsTwice(v, [make] + all.steps, [freeze]);
      }
      aa := Some(dest);
    }

    /** Call arguments, each moved to a new temporary; false if one fails. */
    method EmitArgs(args: seq<Expr>) returns (ok: bool)
      requires Open()
      modifies this, graph
      ensures Kept() && Open()
      ensures ok == ArgsAt(old(Now()), args).addr.Some? && Now() == ThenArgs(old(Now()), args)
      decreases args
    {
      hide LowerExpr, Glue, ThenExpr, AddSteps, ArgsAt, ExprAt, ThenArgs;
      ghost var v := Now();
      var i := 0;
      while i < |args|
        invariant 0 <= i <= |args| && Kept() && Open()
        invariant ThenArgs(v, args) == ThenArgs(Now(), args[i..])
        invariant ArgsAt(v, args).addr == ArgsAt(Now(), args[i..]).addr
      {
        ghost var w := Now();
        assert args[i..][0] == args[i] && args[i..][1..] == args[i + 1..];
        ArgFails(w, args[i..]);
        var arg := EmitExpr(args[i]);
        if arg.None? {
          return false;
        }
        var dest := GenTemp();
        var move := TacMove(dest, arg.value);
        Append(move);
        ArgsStep(w, args[i..], Now());
        i := i + 1;
      }
      ArgsDone(Now());
      ok := true;
    }

    method EmitCall(e: Expr) returns (aa: Option<Addr>)
      requires Open() && e.Call?
      modifies this, graph
      ensures Kept() && Open()
      ensures aa == ExprAt(old(Now()), e).addr && Now() == ThenExpr(old(Now()), ExprAt(old(Now()), e))
      decreases e, 0
    {
      hide LowerExpr, Intern, Lookup, Glue;
      ghost var v := Now();
      ghost var c := LowerExpr(v.nm, e.callee, v.pool, v.next);
      CallIs(v.nm, e, v.pool, v.next);
      var callee := EmitExpr(e.callee);
      if callee.None? {
        return None;
      }
      ghost var all := LowerArgs(v.nm, e.args, c.pool, c.next);
      AddStepsTwice(v, c.steps, all.steps);
      var ok := EmitArgs(e.args);
      if !ok {
        return None;
      }
      var op := if callee.value.tag == Immediate then CallOp else NativeCall;
      var call := OperBinary(Imm(callee.value.id), Imm(|e.args|), op);
      aa := Some(TempAt(next - |e.args|));
      Append(call);
      AddStepsTwice(v, c.steps + all.steps, [call]);
    }

    // -------------------------------------------------------------- statements

    method QueueLink(from: int, to: int)
      modifies this`links
      ensures links == old(links) + [Link(from, to)]
    {
      links := links + [Link(from, to)];
    }

    method NewBlock() returns (id: int)
      requires Open()
      modifies graph
      ensures id == |old(graph.blocks)|
      ensures Open() && Now() == old(Now()).(blocks := Glue(old(Now()).blocks, [[], []]))
    {
      ghost var before := Bare(graph.blocks);
      id := graph.AddBlock();
      assert before[|before| - 1] + [] == before[|before| - 1];
      assert Bare(graph.blocks) == Glue(before, [[], []]);
    }

    method EmitStmt(s: Stmt) returns (ok: bool)
      requires Open()
      modifies this, graph
      ensures Kept() && Open()
      ensures ok == StmtAt(old(Now()), s).ok && Now() == Then(old(Now()), StmtAt(old(Now()), s))
      decreases s, 2
    {
      hide StmtAt, Then;
      match s
      case ExprStmt(expr) => ok := EmitExprStmt(s);
      case LocalDef(_, _) => ok := EmitDef(s);
      case If(_, _, _) => ok := EmitIf(s);
      case Return(_) => ok := EmitReturn(s);
      case While(_, _) => ok := EmitWhile(s);
      case Break => ok := EmitBreak();
    }

    method EmitExprStmt(s: Stmt) returns (ok: bool)
      requires Open() && s.ExprStmt?
      modifies this, graph
      ensures Kept() && Open()
      ensures ok == StmtAt(old(Now()), s).ok && Now() == Then(old(Now()), StmtAt(old(Now()), s))
    {
      hide LowerExpr;
      ghost var v := Now();
      ThenStart(v);
      var aa := EmitExpr(s.expr);
      ThenEvaluate(v, Start(v.nm, v.pool, v.next), LowerExpr(v.nm, s.expr, v.pool, v.next));
      ok := aa.Some?;
    }

    method EmitReturn(s: Stmt) returns (ok: bool)
      requires Open() && s.Return?
      modifies this, graph
      ensures Kept() && Open()
      ensures ok == StmtAt(old(Now()), s).ok && Now() == Then(old(Now()), StmtAt(old(Now()), s))
    {
      hide LowerExpr;
      ghost var v := Now();
      ThenStart(v);
      var aa := EmitExpr(s.result);
      ghost var r := LowerExpr(v.nm, s.result, v.pool, v.next);
      ghost var e := Evaluate(Start(v.nm, v.pool, v.next), r);
      ThenEvaluate(v, Start(v.nm, v.pool, v.next), r);
      if aa.None? {
        return false;
      }
      var step := OperUnary(aa.value, Ret);
      Append(step);
      ThenEmit(v, e, [step]);
      ok := true;
    }

    method EmitDef(s: Stmt) returns (ok: bool)
      requires Open() && s.LocalDef?
      modifies this, graph
      ensures Kept() && Open()
      ensures ok == StmtAt(old(Now()), s).ok && Now() == Then(old(Now()), StmtAt(old(Now()), s))
    {
      hide LowerExpr;
      ghost var v := Now();
      ThenStart(v);
      var init := EmitExpr(s.init);
      ghost var r := LowerExpr(v.nm, s.init, v.pool, v.next);
      ThenEvaluate(v, Start(v.nm, v.pool, v.next), r);
      var dest := GenTemp();
      ghost var e := Evaluate(Start(v.nm, v.pool, v.next), r).(next := r.next + 1);
      if init.None? {
        return false;
      }
      var step := TacMove(dest, init.value);
      Append(step);
      ThenEmit(v, e, [step]);
      ok := RecordLocal(s.name, dest);
      if !ok {
        ReportError();
      }
    }

    method EmitBreak() returns (ok: bool)
      requires Open()
      modifies this, graph
      ensures Kept() && Open()
      ensures ok == StmtAt(old(Now()), Stmt.Break).ok && Now() == Then(old(Now()), StmtAt(old(Now()), Stmt.Break))
    {
      ghost var v := Now();
      ThenStart(v);
      ghost var e := Start(v.nm, v.pool, v.next);
      Append(OperUnary(Imm(0), Jump));
      ThenEmit(v, e, [JumpStep()]);
      Append(OperNonary(MarkBreak));
      ThenEmit(v, Emit(e, [JumpStep()]), [OperNonary(MarkBreak)]);
      ok := true;
    }

    /** Statements in order, up to the first that fails. */
    method EmitItems(ss: seq<Stmt>) returns (ok: bool)
      requires Open()
      modifies this, graph
      ensures Kept() && Open()
      ensures Now() == ThenStmts(old(Now()), ss) && ok == StmtsAt(old(Now()), ss).ok
      decreases ss, 0
    {
      hide StmtAt, StmtsAt, Then, ThenStmts, Glue;
      ghost var v := Now();
      var i := 0;
      while i < |ss|
        invariant 0 <= i <= |ss| && Kept() && Open()
        invariant ThenStmts(v, ss) == ThenStmts(Now(), ss[i..])
        invariant StmtsAt(v, ss).ok == StmtsAt(Now(), ss[i..]).ok
      {
        assert ss[i..][0] == ss[i] && ss[i..][1..] == ss[i + 1..];
        StmtsStep(Now(), ss[i..]);
        ok := EmitStmt(ss[i]);
        if !ok {
          return false;
        }
        i := i + 1;
      }
      StmtsDone(Now());
      ok := true;
    }

    /** The id of the new block, or -1 if a statement failed. */
    method EmitBlock(ss: seq<Stmt>) returns (id: int)
      requires Open()
      modifies this, graph
      ensures Kept() && Open()
      ensures Now() == Then(old(Now()), BlockAt(old(Now()), ss))
      ensures id == if BlockAt(old(Now()), ss).ok then |old(Now()).blocks| else -1
      decreases ss, 1
    {
      hide StmtsAt, BlockAt, Then, ThenStmts, Glue;
      ghost var v := Now();
      id := NewBlock();
      ThenBlock(v, ss, Now());
      var ok := EmitItems(ss);
      if !ok {
        id := -1;
      }
    }

    /** The marker, the condition and the conditional jump of an `if`. */
    method EmitIfCheck(cond: Expr) returns (ok: bool)
      requires Open()
      modifies this, graph
      ensures Kept() && Open()
      ensures ok == ExprAt(old(Now()), cond).addr.Some? && Now() == Then(old(Now()), IfCheckAt(old(Now()), cond))
    {
      hide LowerExpr, Glue;
      ghost var v := Now();
      ghost var start := Start(v.nm, v.pool, v.next);
      ghost var r := ExprAt(v, cond);
      ThenStart(v);
      Append(OperNonary(BeginIfElse));
      ghost var e0 := Emit(start, [OperNonary(BeginIfElse)]);
      ThenEmit(v, start, [OperNonary(BeginIfElse)]);
      var check := EmitExpr(cond);
      ThenEvaluate(v, e0, r);
      if check.None? {
        return false;
      }
      ok := true;
      EmitTwo(OperBinary(check.value, Imm(0), JumpElse), OperNonary(MarkIfElseCheck), v, Evaluate(e0, r));
    }

    method EmitTwo(a: Ir.Step, b: Ir.Step, ghost v: View, ghost e: Emitted)
      requires Open() && v.blocks != [] && e.blocks != [] && Now() == Then(v, e)
      modifies graph
      ensures Open() && Now() == Then(v, Emit(Emit(e, [a]), [b]))
    {
      hide Glue, Then, Emit, AddSteps;
      Append(a);
      ThenEmit(v, e, [a]);
      Append(b);
      ThenEmit(v, Emit(e, [a]), [b]);
    }

    /** The end of an `if` without `else`. */
    method FinishIf(here: int, tId: int, ghost v: View, ghost e: Emitted)
      requires Open() && v.blocks != [] && e.blocks != [] && Now() == Then(v, e) && here == |v.blocks| - 1
      modifies graph, this`links
      ensures Open() && Now() == Then(v, EndIf(e, here, tId))
    {
      hide Glue;
      var post := NewBlock();
      ThenAddBlock(v, e);
      EmitTwo(OperNonary(Pass), OperNonary(EndIfElse), v, AddBlock(e));
      ghost var done := Emit(Emit(AddBlock(e), [OperNonary(Pass)]), [OperNonary(EndIfElse)]);
      QueueLink(tId, post);
      ThenConnect(v, done, tId, post);
      QueueLink(here, post);
      ThenConnect(v, Connect(done, tId, post), here, post);
    }

    /** The second branch of an `if` and its end. */
    method EmitElse(s: Stmt, here: int, ghost v: View, ghost e: Emitted)
      requires Open() && v.blocks != [] && e.blocks != [] && Now() == Then(v, e) && here == |v.blocks| - 1
      requires s.If? && s.els.Else?
      modifies this, graph
      ensures Kept() && Open() && Now() == Then(v, ElseAt(s, here, e))
      decreases s, 0
    {
      hide Glue, BlockAt;
      EmitTwo(OperUnary(Imm(0), Jump), OperNonary(MarkIfElseAlt), v, e);
      Append(OperNonary(Pass));
      ThenEmit(v, Emit(Emit(e, [JumpStep()]), [OperNonary(MarkIfElseAlt)]), [OperNonary(Pass)]);
      ghost var alt := BeginElse(e);
      ghost var w := Now();
      var fId := EmitBlock(s.els.body);
      ThenJoin(v, alt, BlockAt(w, s.els.body));
      ghost var f := Join(alt, BlockAt(w, s.els.body));
      EmitTwo(OperNonary(Pass), OperNonary(EndIfElse), v, f);
      ghost var done := Emit(Emit(f, [OperNonary(Pass)]), [OperNonary(EndIfElse)]);
      QueueLink(here, fId);
      ThenConnect(v, done, here, fId);
      var post := NewBlock();
      ThenAddBlock(v, Connect(done, here, fId));
      QueueLink(fId, post);
      ThenConnect(v, AddBlock(Connect(done, here, fId)), fId, post);
      ElseIs(s, v, e);
    }

    method EmitIf(s: Stmt) returns (ok: bool)
      requires Open() && s.If?
      modifies this, graph
      ensures Kept() && Open()
      ensures ok == StmtAt(old(Now()), s).ok && Now() == Then(old(Now()), StmtAt(old(Now()), s))
      decreases s, 1
    {
      hide Glue, BlockAt, StmtAt, IfCheckAt, ExprAt;
      ghost var v := Now();
      var here := |graph.blocks| - 1;
      IfIs(s, v);
      ok := EmitIfCheck(s.cond);
      if !ok {
        return;
      }
      ghost var e := IfCheckAt(v, s.cond);
      ghost var w := Now();
      var tId := EmitBlock(s.thn);
      ThenJoin(v, e, BlockAt(w, s.thn));
      QueueLink(here, tId);
      ThenConnect(v, Join(e, BlockAt(w, s.thn)), here, tId);
      ghost var e' := Connect(Join(e, BlockAt(w, s.thn)), here, tId);
      if s.els.Else? {
        EmitElse(s, here, v, e');
      } else {
        FinishIf(here, tId, v, e');
      }
    }

    /** The markers, the condition and the exit jump of a loop. */
    method EmitLoopCheck(cond: Expr) returns (ok: bool)
      requires Open()
      modifies this, graph
      ensures Kept() && Open()
      ensures ok == ExprAt(old(Now()), cond).addr.Some? && Now() == Then(old(Now()), LoopCheckAt(old(Now()), cond))
    {
      hide LowerExpr, Glue;
      ghost var v := Now();
      ghost var start := Start(v.nm, v.pool, v.next);
      ghost var r := ExprAt(v, cond);
      ThenStart(v);
      EmitTwo(OperNonary(BeginWhile), OperNonary(Pass), v, start);
      ghost var e0 := Emit(Emit(start, [OperNonary(BeginWhile)]), [OperNonary(Pass)]);
      var check := EmitExpr(cond);
      ThenEvaluate(v, e0, r);
      if check.None? {
        return false;
      }
      ok := true;
      EmitTwo(OperBinary(check.value, Imm(0), JumpElse), OperNonary(MarkWhileCheck), v, Evaluate(e0, r));
    }

    /** The jump back and the end of a loop. */
    method FinishLoop(here: int, bId: int, ghost v: View, ghost e: Emitted)
      requires Open() && v.blocks != [] && e.blocks != [] && Now() == Then(v, e) && here == |v.blocks| - 1
      modifies graph, this`links
      ensures Open() && Now() == Then(v, EndLoop(e, here, bId))
    {
      hide Glue;
      EmitTwo(OperUnary(Imm(0), Jump), OperNonary(MarkContinue), v, e);
      ghost var back := Emit(Emit(e, [JumpStep()]), [OperNonary(MarkContinue)]);
      QueueLink(bId, here);
      ThenConnect(v, back, bId, here);
      QueueLink(here, bId);
      ThenConnect(v, Connect(back, bId, here), here, bId);
      ghost var linked := Connect(Connect(back, bId, here), here, bId);
      var post := NewBlock();
      ThenAddBlock(v, linked);
      EmitTwo(OperNonary(Pass), OperNonary(EndWhile), v, AddBlock(linked));
      ghost var done := Emit(Emit(AddBlock(linked), [OperNonary(Pass)]), [OperNonary(EndWhile)]);
      QueueLink(here, post);
      ThenConnect(v, done, here, post);
    }

    method EmitWhile(s: Stmt) returns (ok: bool)
      requires Open() && s.While?
      modifies this, graph
      ensures Kept() && Open()
      ensures ok == StmtAt(old(Now()), s).ok && Now() == Then(old(Now()), StmtAt(old(Now()), s))
      decreases s, 1
    {
      hide Glue, BlockAt, StmtAt, LoopCheckAt, ExprAt;
      ghost var v := Now();
      var here := |graph.blocks| - 1;
      WhileIs(s, v);
      ok := EmitLoopCheck(s.check);
      if !ok {
        return;
      }
      ghost var e := LoopCheckAt(v, s.check);
      ghost var w := Now();
      var bId := EmitBlock(s.body);
      ThenJoin(v, e, BlockAt(w, s.body));
      FinishLoop(here, bId, v, Join(e, BlockAt(w, s.body)));
    }

    // -------------------------------------------------------------- functions and programs

    /** Apply the queued links in order; a link from a missing block is an error. */
    method ApplyPendingLinks() returns (ok: bool)
      modifies graph, this`links
      ensures match ApplyLinks(old(graph.blocks), old(links))
              case None => !ok
              case Some(g) => ok && graph.blocks == g && links == []
    {
      while links != []
        invariant ApplyLinks(old(graph.blocks), old(links)) == ApplyLinks(graph.blocks, links)
        decreases |links|
      {
        var link := links[0];
        var b := graph.GetBlock(link.from);
        if b.None? {
          return false;
        }
        graph.LinkTo(link.from, link.to);
        links := links[1..];
      }
      ok := true;
    }

    ghost function Built(): Unit
      reads this
    {
      Unit(graphs, Pool(globals, consts), errors)
    }

    /** Between functions: no locals, no temporaries, no queued links. */
    ghost predicate Idle()
      reads this
    {
      locals == map[] && next == 0 && links == []
    }

    method RecordParameters(params: seq<string>) returns (ok: bool)
      requires locals == map[] && next == 0
      modifies this`locals, this`next
      ensures match RecordParams(params)
              case None => !ok
              case Some(all) => ok && locals == all && next == |params|
    {
      var i := 0;
      while i < |params|
        invariant 0 <= i <= |params| && next == i
        invariant RecordParams(params[..i]) == Some(locals)
      {
        assert params[..i + 1][..i] == params[..i];
        var aa := GenTemp();
        ok := RecordLocal(params[i], aa);
        if !ok {
          RecordFails(params, i + 1);
          return false;
        }
        i := i + 1;
      }
      assert params[..i] == params;
      ok := true;
    }

    /** First pass: a function gets the next id. */
    method DeclareFunction(f: Fun) returns (ok: bool)
      modifies this`globals, this`nextFun, this`mainId
      ensures ok <==> f.name !in old(globals)
      ensures nextFun == old(nextFun) + 1
      ensures mainId == if f.name == "main" && old(mainId) == -1 then old(nextFun) else old(mainId)
      ensures globals == if ok then old(globals)[f.name := Imm(old(nextFun))] else old(globals)
    {
      var id := nextFun;
      nextFun := nextFun + 1;
      if f.name == "main" && mainId == -1 {
        mainId := id;
      }
      ok := f.name !in globals;
      if ok {
        globals := globals[f.name := Imm(id)];
      }
    }

    /** Second pass: the control-flow graph of a function. */
    method EmitFunction(f: Fun) returns (ok: bool)
      requires Idle()
      modifies this
      ensures mainId == old(mainId) && nextFun == old(nextFun)
      ensures match LowerFunction(natives, f, old(Built()))
              case None => !ok
              case Some(u) => ok && Built() == u && Idle()
    {
      hide LowerStmts, ApplyLinks, RecordParams, Glue;
      ghost var u := Built();
      graph := new FlowGraph();
      ok := RecordParameters(f.params);
      if ok {
        ghost var all := locals;
        var id := graph.AddBlock();
        ghost var v := Now();
        ok := EmitItems(f.body);
        BodyIs(f.body, v);
        if ok {
          assert graph.blocks == ToGraph(Now().blocks);
          ok := ApplyPendingLinks();
        }
      }
      if ok {
        graphs := graphs + [graph.blocks];
      }
      locals := map[];
      next := 0;
    }

    /** The two passes over a program. */
    method Convert(p: Program) returns (r: Option<FullIr>)
      requires Idle() && globals == map[] && consts == [] && graphs == [] && errors == 0 && mainId == -1 && nextFun == 0
      modifies this
      ensures r == LowerProgram(natives, p)
    {
      var i := 0;
      ghost var start := Prepass(map[], 0, -1);
      while i < |p|
        invariant 0 <= i <= |p|
        invariant Idle() && consts == [] && graphs == [] && errors == 0
        invariant CollectFunctions(p, start) == CollectFunctions(p[i..], Prepass(globals, nextFun, mainId))
      {
        assert p[i..][0] == p[i] && p[i..][1..] == p[i + 1..];
        if p[i].Function? {
          var ok := DeclareFunction(p[i].fun);
          if !ok {
            return None;
          }
        }
        i := i + 1;
      }
      ghost var pre := Prepass(globals, nextFun, mainId);
      ghost var u0 := Built();
      i := 0;
      while i < |p|
        invariant 0 <= i <= |p| && Idle() && mainId == pre.mainId
        invariant LowerDecls(natives, p, u0) == LowerDecls(natives, p[i..], Built())
      {
        assert p[i..][0] == p[i] && p[i..][1..] == p[i + 1..];
        if p[i].Function? {
          var ok := EmitFunction(p[i].fun);
          if !ok {
            return None;
          }
        }
        i := i + 1;
      }
      if errors > 0 {
        return None;
      }
      r := Some(FullIr(graphs, consts, mainId));
    }
  }

  /** Up to the exit test of a loop, or up to its failing condition. */
  function LoopCheckAt(v: View, cond: Expr): (e: Emitted)
    requires v.blocks != []
    ensures e.blocks != []
  {
    var r := ExprAt(v, cond);
    if r.addr.Some? then BeginLoop(v.nm, v.pool, v.next, r)
    else Evaluate(Emit(Emit(Start(v.nm, v.pool, v.next), [OperNonary(BeginWhile)]), [OperNonary(Pass)]), r)
  }

  lemma {:induction false} RecordFails(params: seq<string>, i: nat)
    requires i <= |params| && RecordParams(params[..i]).None?
    ensures RecordParams(params).None?
    decreases |params|
  {
    if i < |params| {
      assert params[..|params| - 1][..i] == params[..i];
      RecordFails(params[..|params| - 1], i);
    } else {
      assert params[..i] == params;
    }
  }

  /** A body lowered into a single empty block. */
  lemma BodyIs(ss: seq<Stmt>, v: View)
    requires v.blocks == [[]] && v.links == []
    ensures var e := LowerStmts(ss, v.nm, v.pool, v.next, 0);
            ThenStmts(v, ss) == View(e.blocks, e.links, e.nm, e.pool, e.next, v.errors + e.errors) && StmtsAt(v, ss) == e
  {
    hide LowerStmts;
    var e := LowerStmts(ss, v.nm, v.pool, v.next, 0);
    GlueUnit(e.blocks);
    assert [] + e.links == e.links;
  }

  /** Up to the branch of an `if`, or up to its failing condition. */
  function IfCheckAt(v: View, cond: Expr): (e: Emitted)
    requires v.blocks != []
    ensures e.blocks != []
  {
    var r := ExprAt(v, cond);
    if r.addr.Some? then BeginIf(v.nm, v.pool, v.next, r)
    else Evaluate(Emit(Start(v.nm, v.pool, v.next), [OperNonary(BeginIfElse)]), r)
  }

  /** The second branch, after `e`. */
  function ElseAt(s: Stmt, here: int, e: Emitted): (r: Emitted)
    requires s.If? && s.els.Else? && e.blocks != []
    ensures r.blocks != []
  {
    var alt := BeginElse(e);
    var elseHere := here + |alt.blocks| - 1;
    var f := LowerBlock(s.els.body, alt.nm, alt.pool, alt.next, elseHere);
    EndElse(Join(alt, f), here, if f.ok then elseHere + 1 else -1)
  }

  /** The state after lowering sequence items from `v`. */
  function ThenItems(v: View, items: seq<Expr>, dest: Addr): View
    requires v.blocks != []
  {
    ThenExpr(v, LowerItems(v.nm, items, dest, v.pool, v.next))
  }

  lemma ItemsStep(v: View, items: seq<Expr>, dest: Addr, w: View)
    requires v.blocks != [] && items != []
    requires var h := LowerExpr(v.nm, items[0], v.pool, v.next);
             h.addr.Some? && w == AddSteps(ThenExpr(v, h), [OperTernary(dest, h.addr.value, Imm(1), SeqObjPush)])
    ensures w.blocks != [] && ThenItems(v, items, dest) == ThenItems(w, items[1..], dest)
    ensures LowerItems(v.nm, items, dest, v.pool, v.next).addr == LowerItems(w.nm, items[1..], dest, w.pool, w.next).addr
  {
    hide LowerExpr;
    var h := LowerExpr(v.nm, items[0], v.pool, v.next);
    var t := LowerItems(v.nm, items[1..], dest, h.pool, h.next);
    var push := [OperTernary(dest, h.addr.value, Imm(1), SeqObjPush)];
    AddStepsTwice(v, h.steps, push);
    AddStepsTwice(v, h.steps + push, t.steps);
  }

  function ArgsAt(v: View, args: seq<Expr>): Lowered {
    LowerArgs(v.nm, args, v.pool, v.next)
  }

  /** The state after lowering call arguments from `v`. */
  function ThenArgs(v: View, args: seq<Expr>): View
    requires v.blocks != []
  {
    ThenExpr(v, ArgsAt(v, args))
  }

  lemma ArgsDone(v: View)
    requires v.blocks != []
    ensures ThenArgs(v, []) == v && ArgsAt(v, []).addr.Some?
  {
    AddStepsTwice(v, [], []);
  }

  lemma ArgFails(v: View, args: seq<Expr>)
    requires v.blocks != [] && args != []
    ensures ExprAt(v, args[0]).addr.None? ==>
              ThenArgs(v, args) == ThenExpr(v, ExprAt(v, args[0])) && ArgsAt(v, args).addr.None?
  {
    hide LowerExpr;
  }

  lemma ArgsStep(v: View, args: seq<Expr>, w: View)
    requires v.blocks != [] && args != []
    requires var h := ExprAt(v, args[0]);
             h.addr.Some? && w == AddSteps(ThenExpr(v, h).(next := ThenExpr(v, h).next + 1), [TacMove(TempAt(ThenExpr(v, h).next), h.addr.value)])
    ensures w.blocks != [] && ThenArgs(v, args) == ThenArgs(w, args[1..])
    ensures ArgsAt(v, args).addr == ArgsAt(w, args[1..]).addr
  {
    hide LowerExpr, Glue;
    var h := ExprAt(v, args[0]);
    var t := LowerArgs(v.nm, args[1..], h.pool, h.next + 1);
    var move := [TacMove(TempAt(h.next), h.addr.value)];
    AddStepsTwice(v, h.steps, move);
    AddStepsTwice(v, h.steps + move, t.steps);
  }

  lemma SequenceIs(nm: Names, e: Expr, pool: Pool, n: int)
    requires e.Sequence?
    ensures var r := LowerItems(nm, e.items, TempAt(n), pool, n + 1);
            var made := [OperUnary(TempAt(n), MakeSeq)] + r.steps;
            LowerExpr(nm, e, pool, n) ==
              if r.addr.None? || !e.isTuple then r.(steps := made) else r.(steps := made + [OperUnary(TempAt(n), FrzSeqObj)])
  {
  }

  lemma CallIs(nm: Names, e: Expr, pool: Pool, n: int)
    requires e.Call?
    ensures var c := LowerExpr(nm, e.callee, pool, n);
            var r := LowerArgs(nm, e.args, c.pool, c.next);
            var steps := c.steps + r.steps;
            LowerExpr(nm, e, pool, n) ==
              if c.addr.None? then c
              else if r.addr.None? then Lowered(steps, None, r.pool, r.next, c.errors + r.errors)
              else Lowered(steps + [OperBinary(Imm(c.addr.value.id), Imm(|e.args|), if c.addr.value.tag == Immediate then CallOp else NativeCall)],
                           Some(TempAt(r.next - |e.args|)), r.pool, r.next, c.errors + r.errors)
  {
  }

  lemma BinaryIs(nm: Names, e: Expr, pool: Pool, n: int)
    requires e.Binary?
    ensures var l := LowerExpr(nm, e.left, pool, n);
            var r := LowerExpr(nm, e.right, l.pool, l.next);
            var steps, errors, dest := l.steps + r.steps, l.errors + r.errors, TempAt(r.next);
            LowerExpr(nm, e, pool, n) ==
              if l.addr.None? || r.addr.None? then Lowered(steps, None, r.pool, r.next, errors)
              else
                match e.bop
                case Arith(op) =>
                  Lowered(steps + [TacBinary(dest, l.addr.value, r.addr.value, op)], Some(dest), r.pool, r.next + 1, errors)
                case Access =>
                  Lowered(steps + [OperTernary(dest, l.addr.value, r.addr.value, SeqObjGet)], Some(dest), r.pool, r.next + 1, errors)
                case _ => Lowered(steps, None, r.pool, r.next, errors + 1)
  {
  }

  lemma ThenEmit(v: View, e: Emitted, steps: seq<Ir.Step>)
    requires v.blocks != [] && e.blocks != []
    ensures AddSteps(Then(v, e), steps) == Then(v, Emit(e, steps))
  {
    GlueAssoc(v.blocks, e.blocks, [steps]);
  }

  lemma ThenEvaluate(v: View, e: Emitted, r: Lowered)
    requires v.blocks != [] && e.blocks != []
    ensures ThenExpr(Then(v, e), r) == Then(v, Evaluate(e, r))
  {
    ThenEmit(v, e, r.steps);
  }

  lemma ThenConnect(v: View, e: Emitted, from: int, to: int)
    requires v.blocks != [] && e.blocks != []
    ensures Then(v, e).(links := Then(v, e).links + [Link(from, to)]) == Then(v, Connect(e, from, to))
  {
    assert v.links + e.links + [Link(from, to)] == v.links + (e.links + [Link(from, to)]);
  }

  lemma ThenAddBlock(v: View, e: Emitted)
    requires v.blocks != [] && e.blocks != []
    ensures Then(v, e).(blocks := Glue(Then(v, e).blocks, [[], []])) == Then(v, AddBlock(e))
  {
    GlueAssoc(v.blocks, e.blocks, [[], []]);
  }

  lemma ThenJoin(v: View, a: Emitted, b: Emitted)
    requires v.blocks != [] && a.blocks != [] && b.blocks != []
    ensures Then(Then(v, a), b) == Then(v, Join(a, b))
  {
    GlueAssoc(v.blocks, a.blocks, b.blocks);
    assert v.links + a.links + b.links == v.links + (a.links + b.links);
  }

  /** The state after lowering a statement list from `v`. */
  function ThenStmts(v: View, ss: seq<Stmt>): View
    requires v.blocks != []
  {
    Then(v, StmtsAt(v, ss))
  }

  lemma ThenBlock(v: View, ss: seq<Stmt>, v1: View)
    requires v.blocks != [] && v1 == v.(blocks := Glue(v.blocks, [[], []]))
    ensures v1.blocks != [] && Then(v, BlockAt(v, ss)) == ThenStmts(v1, ss) && BlockAt(v, ss).ok == StmtsAt(v1, ss).ok
  {
    hide LowerStmts, Glue;
    ThenStart(v);
    var start := Start(v.nm, v.pool, v.next);
    ThenAddBlock(v, start);
    ThenJoin(v, AddBlock(start), LowerStmts(ss, v.nm, v.pool, v.next, |v.blocks|));
  }

  lemma StmtsDone(v: View)
    requires v.blocks != []
    ensures ThenStmts(v, []) == v && StmtsAt(v, []).ok
  {
    ThenStart(v);
  }

  lemma StmtsStep(v: View, ss: seq<Stmt>)
    requires v.blocks != [] && ss != []
    ensures var h := StmtAt(v, ss[0]);
            var w := Then(v, h);
            && ThenStmts(v, ss) == (if h.ok then ThenStmts(w, ss[1..]) else w)
            && StmtsAt(v, ss).ok == (h.ok && StmtsAt(w, ss[1..]).ok)
  {
    hide LowerStmt, Glue;
    var h := StmtAt(v, ss[0]);
    var w := Then(v, h);
    ThenJoin(v, h, StmtsAt(w, ss[1..]));
  }

  lemma ElseIs(s: Stmt, v: View, e: Emitted)
    requires v.blocks != [] && e.blocks != [] && s.If? && s.els.Else?
    ensures var alt := BeginElse(e);
            var w := Then(v, alt);
            var here := |v.blocks| - 1;
            ElseAt(s, here, e) == EndElse(Join(alt, BlockAt(w, s.els.body)), here, if BlockAt(w, s.els.body).ok then |w.blocks| else -1)
  {
    hide LowerBlock, EndElse;
  }

  lemma IfIs(s: Stmt, v: View)
    requires v.blocks != [] && s.If?
    ensures var c := IfCheckAt(v, s.cond);
            var w := Then(v, c);
            var t := BlockAt(w, s.thn);
            var here := |v.blocks| - 1;
            var tId := if t.ok then |w.blocks| else -1;
            var e := Connect(Join(c, t), here, tId);
            if ExprAt(v, s.cond).addr.None? then Then(v, StmtAt(v, s)) == w && !StmtAt(v, s).ok
            else StmtAt(v, s).ok && Then(v, StmtAt(v, s)) == Then(v, if s.els.Else? then ElseAt(s, here, e) else EndIf(e, here, tId))
  {
    hide LowerBlock, LowerExpr, Glue;
  }

  lemma WhileIs(s: Stmt, v: View)
    requires v.blocks != [] && s.While?
    ensures var c := LoopCheckAt(v, s.check);
            var w := Then(v, c);
            var b := BlockAt(w, s.body);
            var here := |v.blocks| - 1;
            var bId := if b.ok then |w.blocks| else -1;
            if ExprAt(v, s.check).addr.None? then Then(v, StmtAt(v, s)) == w && !StmtAt(v, s).ok
            else StmtAt(v, s).ok && Then(v, StmtAt(v, s)) == Then(v, EndLoop(Join(c, b), here, bId))
  {
    hide LowerBlock, LowerExpr, Glue;
  }
}
