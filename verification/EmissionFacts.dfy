/** Emitting a cleanly lowered function body gives exactly the compositional code. */
module EmissionFacts {
  import opened Syntax
  import opened ExprLowering
  import opened LoweringFacts
  import opened Compositional
  import opened StmtLowering
  import opened BlockGraph
  import opened CleanLowering
  import opened Emission
  import opened Backpatching
  import Ir
  import Machine

  /** Emit all steps of a fragment of blocks, in block order. */
  function Run(es: EmitterState, e: Emitted): Option<EmitterState> {
    EmitSteps(es, Flat(e.blocks))
  }

  lemma RunStart(es: EmitterState, nm: Names, pool: Pool, n: int)
    ensures Run(es, Start(nm, pool, n)) == Some(es)
  {
    assert Flat([[]]) == [] + Flat([]);
  }

  lemma RunEmit(es: EmitterState, e: Emitted, steps: seq<Ir.Step>, es1: EmitterState)
    requires e.blocks != [] && Run(es, e) == Some(es1)
    ensures Run(es, Emit(e, steps)) == EmitSteps(es1, steps)
  {
    FlatGlue(e.blocks, [steps]);
    assert Flat([steps]) == steps by {
      assert [steps][1..] == [];
      assert steps + [] == steps;
    }
    EmitAppend(es, Flat(e.blocks), steps);
  }

  lemma RunJoin(es: EmitterState, a: Emitted, b: Emitted, es1: EmitterState)
    requires a.blocks != [] && b.blocks != [] && Run(es, a) == Some(es1)
    ensures Run(es, Join(a, b)) == Run(es1, b)
  {
    FlatGlue(a.blocks, b.blocks);
    EmitAppend(es, Flat(a.blocks), Flat(b.blocks));
  }

  lemma RunAddBlock(es: EmitterState, e: Emitted)
    requires e.blocks != []
    ensures Run(es, AddBlock(e)) == Run(es, e)
  {
    FlatGlue(e.blocks, [[], []]);
    assert Flat([[], []]) == [] by {
      assert Flat([[], []][1..]) == [] + Flat([]);
    }
    assert Flat(e.blocks) + [] == Flat(e.blocks);
  }

  /** Steps without markers are translated one after the other. */
  lemma {:induction false} EmitPlain(es: EmitterState, steps: seq<Ir.Step>)
    requires NoMarkers(steps)
    ensures EmitSteps(es, steps) == Some(es.(code := es.code + TranslateAll(steps)))
    decreases |steps|
  {
    if steps == [] {
      assert es.code + [] == es.code;
    } else {
      EmitPlainStep(es, steps[0]);
      hide TranslateStep, EmitStep;
      var h, q := TranslateStep(steps[0]), TranslateAll(steps[1..]);
      EmitPlain(es.(code := es.code + h), steps[1..]);
      assert es.code + h + q == es.code + (h + q);
    }
  }

  lemma EmitPlainStep(es: EmitterState, step: Ir.Step)
    requires !step.OperNonary?
    ensures EmitStep(es, step) == Some(es.(code := es.code + TranslateStep(step)))
  {
    hide TranslateStep;
  }

  lemma LastOf<T>(s: seq<T>, x: T, y: T)
    ensures Last(s + [x]) == x && WithLast(s + [x], y) == s + [y] && Pop(s + [x]) == s
  {
  }

  lemma EmitOne(es: EmitterState, step: Ir.Step)
    ensures EmitSteps(es, [step]) == EmitStep(es, step)
  {
    hide EmitStep;
    assert [step][1..] == [];
  }

  /** One more step after a fragment. */
  lemma RunOne(es: EmitterState, e: Emitted, step: Ir.Step, es1: EmitterState)
    requires e.blocks != [] && Run(es, e) == Some(es1)
    ensures Run(es, Emit(e, [step])) == EmitStep(es1, step)
  {
    RunEmit(es, e, [step], es1);
    EmitOne(es1, step);
  }

  lemma RunEvaluate(es: EmitterState, e: Emitted, r: Lowered, es1: EmitterState)
    requires e.blocks != [] && Run(es, e) == Some(es1) && NoMarkers(r.steps)
    ensures Run(es, Evaluate(e, r)) == Some(es1.(code := es1.code + TranslateAll(r.steps)))
  {
    RunEmit(es, e, r.steps, es1);
    EmitPlain(es1, r.steps);
  }

  // ---------------------------------------------------------------- pieces of constructs

  lemma RunBeginIf(es: EmitterState, nm: Names, pool: Pool, n: int, r: Lowered)
    requires CleanExpr(r)
    ensures var check := TranslateAll(r.steps);
            Run(es, BeginIf(nm, pool, n, r)) ==
              Some(EmitterState(es.code + check + [JumpElseTo(Result(r), 0)],
                                es.ifs + [ActiveIf(|es.code| + |check|, -1, 0)], es.loops))
  {
    hide Run, TranslateAll, NoMarkers, Emit;
    var start := Start(nm, pool, n);
    RunStart(es, nm, pool, n);
    RunOne(es, start, Meta(Ir.BeginIfElse), es);
    var e0 := Emit(start, [Meta(Ir.BeginIfElse)]);
    var es0 := es.(ifs := es.ifs + [ActiveIf(0, -1, 0)]);
    RunEvaluate(es, e0, r, es0);
    var e1, es1 := Evaluate(e0, r), es0.(code := es.code + TranslateAll(r.steps));
    RunOne(es, e1, JumpElseStep(r.addr.value), es1);
    var e2, es2 := Emit(e1, [JumpElseStep(r.addr.value)]), es1.(code := es1.code + [JumpElseTo(Result(r), 0)]);
    RunOne(es, e2, Meta(Ir.MarkIfElseCheck), es2);
    LastOf(es.ifs, ActiveIf(0, -1, 0), ActiveIf(|es.code| + |TranslateAll(r.steps)|, -1, 0));
  }

  lemma RunBeginLoop(es: EmitterState, nm: Names, pool: Pool, n: int, r: Lowered)
    requires CleanExpr(r)
    ensures var check := TranslateAll(r.steps);
            Run(es, BeginLoop(nm, pool, n, r)) ==
              Some(EmitterState(es.code + [NOP] + check + [JumpElseTo(Result(r), 0)], es.ifs,
                                es.loops + [ActiveLoop([], [], |es.code|, |es.code| + 1 + |check|, 0)]))
  {
    hide Run, TranslateAll, NoMarkers, Emit;
    var start := Start(nm, pool, n);
    RunStart(es, nm, pool, n);
    RunOne(es, start, Meta(Ir.BeginWhile), es);
    var e0 := Emit(start, [Meta(Ir.BeginWhile)]);
    var es0 := es.(loops := es.loops + [ActiveLoop([], [], |es.code|, 0, 0)]);
    RunOne(es, e0, Meta(Ir.Pass), es0);
    var e1, es1 := Emit(e0, [Meta(Ir.Pass)]), es0.(code := es.code + [NOP]);
    RunEvaluate(es, e1, r, es1);
    var e2, es2 := Evaluate(e1, r), es1.(code := es1.code + TranslateAll(r.steps));
    RunOne(es, e2, JumpElseStep(r.addr.value), es2);
    var e3, es3 := Emit(e2, [JumpElseStep(r.addr.value)]), es2.(code := es2.code + [JumpElseTo(Result(r), 0)]);
    RunOne(es, e3, Meta(Ir.MarkWhileCheck), es3);
    LastOf(es.loops, ActiveLoop([], [], |es.code|, 0, 0), ActiveLoop([], [], |es.code|, |es.code| + 1 + |TranslateAll(r.steps)|, 0));
  }

  lemma RunEndIf(es: EmitterState, e: Emitted, here: int, tId: int, es1: EmitterState)
    requires e.blocks != [] && Run(es, e) == Some(es1) && es1.ifs != []
    ensures Run(es, EndIf(e, here, tId)) == EndIfStep(es1.(code := es1.code + [NOP]))
  {
    hide Run, Emit, AddBlock, EndIfStep;
    RunAddBlock(es, e);
    RunOne(es, AddBlock(e), Meta(Ir.Pass), es1);
    var e1, es2 := Emit(AddBlock(e), [Meta(Ir.Pass)]), es1.(code := es1.code + [NOP]);
    RunOne(es, e1, Meta(Ir.EndIfElse), es2);
    RunSame(es, Emit(e1, [Meta(Ir.EndIfElse)]), EndIf(e, here, tId));
  }

  lemma RunSame(es: EmitterState, a: Emitted, b: Emitted)
    requires a.blocks == b.blocks
    ensures Run(es, a) == Run(es, b)
  {
  }

  lemma RunBeginElse(es: EmitterState, e: Emitted, es1: EmitterState)
    requires e.blocks != [] && Run(es, e) == Some(es1) && es1.ifs != []
    ensures Run(es, BeginElse(e)) ==
              Some(EmitterState(es1.code + [JumpTo(0), NOP], WithLast(es1.ifs, Last(es1.ifs).(alt := |es1.code|)), es1.loops))
  {
    hide Run, Emit;
    RunOne(es, e, JumpStep(), es1);
    var e1, es2 := Emit(e, [JumpStep()]), es1.(code := es1.code + [JumpTo(0)]);
    RunOne(es, e1, Meta(Ir.MarkIfElseAlt), es2);
    var e2, es3 := Emit(e1, [Meta(Ir.MarkIfElseAlt)]), es2.(ifs := WithLast(es1.ifs, Last(es1.ifs).(alt := |es1.code|)));
    RunOne(es, e2, Meta(Ir.Pass), es3);
    assert es1.code + [JumpTo(0)] + [NOP] == es1.code + [JumpTo(0), NOP];
  }

  lemma RunEndElse(es: EmitterState, e: Emitted, here: int, fId: int, es1: EmitterState)
    requires e.blocks != [] && Run(es, e) == Some(es1) && es1.ifs != []
    ensures Run(es, EndElse(e, here, fId)) == EndIfStep(es1.(code := es1.code + [NOP]))
  {
    hide Run, Emit, AddBlock, EndIfStep;
    RunOne(es, e, Meta(Ir.Pass), es1);
    var e1, es2 := Emit(e, [Meta(Ir.Pass)]), es1.(code := es1.code + [NOP]);
    RunOne(es, e1, Meta(Ir.EndIfElse), es2);
    var e2 := Connect(Emit(e1, [Meta(Ir.EndIfElse)]), here, fId);
    RunSame(es, Emit(e1, [Meta(Ir.EndIfElse)]), e2);
    RunAddBlock(es, e2);
    RunSame(es, AddBlock(e2), EndElse(e, here, fId));
  }

  lemma RunEndLoop(es: EmitterState, e: Emitted, here: int, bId: int, es1: EmitterState)
    requires e.blocks != [] && Run(es, e) == Some(es1) && es1.loops != []
    ensures Run(es, EndLoop(e, here, bId)) ==
              EndWhileStep(EmitterState(es1.code + [JumpTo(0), NOP], es1.ifs,
                                        WithLast(es1.loops, Last(es1.loops).(conts := Last(es1.loops).conts + [|es1.code|]))))
  {
    hide Run, Emit, AddBlock, EndWhileStep;
    RunOne(es, e, JumpStep(), es1);
    var e1, es2 := Emit(e, [JumpStep()]), es1.(code := es1.code + [JumpTo(0)]);
    RunOne(es, e1, Meta(Ir.MarkContinue), es2);
    var e2 := Emit(e1, [Meta(Ir.MarkContinue)]);
    var es3 := es2.(loops := WithLast(es1.loops, Last(es1.loops).(conts := Last(es1.loops).conts + [|es1.code|])));
    var e3 := Connect(Connect(e2, bId, here), here, bId);
    RunSame(es, e2, e3);
    RunAddBlock(es, e3);
    RunOne(es, AddBlock(e3), Meta(Ir.Pass), es3);
    assert es1.code + [JumpTo(0)] + [NOP] == es1.code + [JumpTo(0), NOP];
    var e4, es4 := Emit(AddBlock(e3), [Meta(Ir.Pass)]), es3.(code := es1.code + [JumpTo(0), NOP]);
    RunOne(es, e4, Meta(Ir.EndWhile), es4);
    RunSame(es, Emit(e4, [Meta(Ir.EndWhile)]), EndLoop(e, here, bId));
  }

  // ---------------------------------------------------------------- closing a construct

  /** What a finished construct leaves pending for the loop around it. */
  function AddBreaks(loops: seq<ActiveLoop>, brks: seq<int>): seq<ActiveLoop> {
    if brks == [] || loops == [] then loops
    else WithLast(loops, Last(loops).(brks := Last(loops).brks + brks))
  }

  lemma AddBreaksTwice(loops: seq<ActiveLoop>, a: seq<int>, b: seq<int>)
    ensures AddBreaks(AddBreaks(loops, a), b) == AddBreaks(loops, a + b)
    ensures (AddBreaks(loops, a) == []) == (loops == [])
  {
    if loops != [] {
      assert Last(loops).brks + a + b == Last(loops).brks + (a + b);
      assert a == [] ==> a + b == b;
      assert b == [] ==> a + b == a;
    }
  }

  /** Emitting the fragment appends exactly `code` and leaves both stacks as they were, but
      for the `break` jumps recorded with the enclosing loop. */
  ghost predicate Emits(es: EmitterState, e: Emitted, code: Machine.Chunk, brks: seq<int>) {
    Run(es, e) == Some(EmitterState(es.code + code, es.ifs, AddBreaks(es.loops, brks)))
  }

  /** The check of an `if` without `else` is aimed at the closing `nop`. */
  lemma CloseIf(before: Machine.Chunk, check: Machine.Chunk, aa: Ir.Addr, t: Machine.Chunk, ifs: seq<ActiveIf>, loops: seq<ActiveLoop>)
    ensures var code := before + check + [JumpElseTo(aa, 0)] + t + [NOP];
            var end := |before| + |check| + 1 + |t|;
            EndIfStep(EmitterState(code, ifs + [ActiveIf(|before| + |check|, -1, 0)], loops)) ==
              Some(EmitterState(before + (check + [JumpElseTo(aa, end)] + t + [NOP]), ifs, loops))
  {
    var at := |before| + |check|;
    var code := before + check + [JumpElseTo(aa, 0)] + t + [NOP];
    var end := at + 1 + |t|;
    LastOf(ifs, ActiveIf(at, -1, 0), ActiveIf(at, -1, 0));
    assert code[at] == JumpElseTo(aa, 0);
    assert code[at := SetTarget1(code[at], end)] == before + (check + [JumpElseTo(aa, end)] + t + [NOP]);
  }

  /** With an `else` the check is aimed past the jump, and the jump at the closing `nop`. */
  lemma CloseElse(
    before: Machine.Chunk, check: Machine.Chunk, aa: Ir.Addr, t: Machine.Chunk, f: Machine.Chunk, ifs: seq<ActiveIf>, loops: seq<ActiveLoop>)
    ensures var code := before + check + [JumpElseTo(aa, 0)] + t + [JumpTo(0), NOP] + f + [NOP];
            var alt := |before| + |check| + 1 + |t|;
            EndIfStep(EmitterState(code, ifs + [ActiveIf(|before| + |check|, alt, 0)], loops)) ==
              Some(EmitterState(before + (check + [JumpElseTo(aa, alt + 1)] + t + [JumpTo(alt + 2 + |f|), NOP] + f + [NOP]), ifs, loops))
  {
    var at := |before| + |check|;
    var code := before + check + [JumpElseTo(aa, 0)] + t + [JumpTo(0), NOP] + f + [NOP];
    var alt := at + 1 + |t|;
    LastOf(ifs, ActiveIf(at, alt, 0), ActiveIf(at, alt, 0));
    assert code[at] == JumpElseTo(aa, 0) && code[alt] == JumpTo(0);
    var c1 := code[at := SetTarget1(code[at], alt + 1)];
    assert c1[alt] == JumpTo(0);
    assert c1[alt := SetTarget0(c1[alt], alt + 2 + |f|)]
           == before + (check + [JumpElseTo(aa, alt + 1)] + t + [JumpTo(alt + 2 + |f|), NOP] + f + [NOP]);
  }

  /** Closing a loop aims the check and every recorded `break` at the exit `nop`, and the
      jump back at the first `nop`. */
  lemma CloseLoop(
    before: Machine.Chunk, check: Machine.Chunk, aa: Ir.Addr, b: Machine.Chunk, b': Machine.Chunk, brks: seq<int>,
    ifs: seq<ActiveIf>, loops: seq<ActiveLoop>, first: int, exit: int)
    requires first == |before| + 1 + |check| + 1 && exit == first + |b| + 1
    requires Redirected(b, b', first, brks, exit)
    ensures var code := before + [NOP] + check + [JumpElseTo(aa, 0)] + b + [JumpTo(0), NOP];
            EndWhileStep(EmitterState(code, ifs, loops + [ActiveLoop(brks, [exit - 1], |before|, first - 1, 0)])) ==
              Some(EmitterState(before + ([NOP] + check + [JumpElseTo(aa, exit)] + b' + [JumpTo(|before|), NOP]), ifs, loops))
  {
    var loop := ActiveLoop(brks, [exit - 1], |before|, first - 1, 0);
    var code := before + [NOP] + check + [JumpElseTo(aa, 0)] + b + [JumpTo(0), NOP];
    LastOf(loops, loop, loop);
    assert code[first - 1] == JumpElseTo(aa, 0);
    var front := before + [NOP] + check + [JumpElseTo(aa, exit)];
    var c1 := code[first - 1 := SetTarget1(code[first - 1], exit)];
    assert c1 == front + b + [JumpTo(0), NOP];
    PatchMiddle(front, b, b', [JumpTo(0), NOP], brks, exit);
    var c2 := front + b' + [JumpTo(0), NOP];
    PatchBack(c2, exit - 1, |before|);
    assert c2[exit - 1] == JumpTo(0);
    assert c2[exit - 1 := JumpTo(|before|)] == before + ([NOP] + check + [JumpElseTo(aa, exit)] + b' + [JumpTo(|before|), NOP]);
  }

  lemma PatchBack(code: Machine.Chunk, ip: int, target: int)
    requires 0 <= ip < |code|
    ensures AllInChunk(code, [ip]) && PatchAll(code, [ip], target) == code[ip := SetTarget0(code[ip], target)]
  {
    assert [ip][1..] == [];
  }

  // ---------------------------------------------------------------- statements

  lemma {:induction false} EmitStmtClean(s: Stmt, nm: Names, pool: Pool, n: int, here: int, inLoop: bool, es: EmitterState)
    requires CleanStmt(s, nm, pool, n, inLoop) && (inLoop ==> es.loops != [])
    ensures Emits(es, LowerStmt(s, nm, pool, n, here), CompileStmt(s, nm, pool, n, |es.code|, 0).code,
                  BreaksOf(s, nm, pool, n, |es.code|))
    decreases s, 2
  {
    match s
    case If(_, _, _) => EmitIfClean(s, nm, pool, n, here, inLoop, es);
    case While(_, _) => EmitWhileClean(s, nm, pool, n, here, inLoop, es);
    case _ => EmitSimpleClean(s, nm, pool, n, here, inLoop, es);
  }

  lemma EmitSimpleClean(s: Stmt, nm: Names, pool: Pool, n: int, here: int, inLoop: bool, es: EmitterState)
    requires !s.If? && !s.While? && CleanStmt(s, nm, pool, n, inLoop) && (inLoop ==> es.loops != [])
    ensures Emits(es, LowerStmt(s, nm, pool, n, here), CompileStmt(s, nm, pool, n, |es.code|, 0).code,
                  BreaksOf(s, nm, pool, n, |es.code|))
  {
    hide Run, NoMarkers, Emit, LowerExpr, TranslateAll;
    var start := Start(nm, pool, n);
    RunStart(es, nm, pool, n);
    match s
    case ExprStmt(e) => EmitValue(es, nm, pool, n, e, start);
    case LocalDef(name, init) =>
      EmitValue(es, nm, pool, n, init, start);
      var r := LowerExpr(nm, init, pool, n);
      var es1 := es.(code := es.code + TranslateAll(r.steps));
      var e := Evaluate(start, r).(next := r.next + 1);
      RunSame(es, Evaluate(start, r), e);
      RunOne(es, e, Ir.TacMove(Ir.TempAt(r.next), r.addr.value), es1);
      RunSame(es, Emit(e, [Ir.TacMove(Ir.TempAt(r.next), r.addr.value)]), LowerStmt(s, nm, pool, n, here));
      assert es1.code + [MovInstr(Ir.TempAt(r.next), Result(r))] == es.code + CompileStmt(s, nm, pool, n, |es.code|, 0).code;
    case Return(result) =>
      EmitValue(es, nm, pool, n, result, start);
      var r := LowerExpr(nm, result, pool, n);
      var es1 := es.(code := es.code + TranslateAll(r.steps));
      RunOne(es, Evaluate(start, r), Ir.OperUnary(r.addr.value, Ir.Ret), es1);
      assert es1.code + [Single(Machine.Ret, Translate(Result(r)))] == es.code + CompileStmt(s, nm, pool, n, |es.code|, 0).code;
    case Break =>
      RunOne(es, start, JumpStep(), es);
      var es1 := es.(code := es.code + [JumpTo(0)]);
      RunOne(es, Emit(start, [JumpStep()]), Meta(Ir.MarkBreak), es1);
  }

  lemma EmitValue(es: EmitterState, nm: Names, pool: Pool, n: int, e: Expr, start: Emitted)
    requires CleanExpr(LowerExpr(nm, e, pool, n)) && start.blocks != [] && Run(es, start) == Some(es)
    ensures var r := LowerExpr(nm, e, pool, n);
            && Run(es, Evaluate(start, r)) == Some(es.(code := es.code + TranslateAll(r.steps)))
            && Run(es, Evaluate(start, r).(ok := true)) == Some(es.(code := es.code + TranslateAll(r.steps)))
  {
    hide Run, NoMarkers, TranslateAll, LowerExpr;
    var r := LowerExpr(nm, e, pool, n);
    RunEvaluate(es, start, r, es);
    RunSame(es, Evaluate(start, r), Evaluate(start, r).(ok := true));
  }

  /** The condition and first branch of an `if`. */
  lemma {:induction false} EmitThen(s: Stmt, nm: Names, pool: Pool, n: int, here: int, inLoop: bool, es: EmitterState)
    requires s.If? && CleanStmt(s, nm, pool, n, inLoop) && (inLoop ==> es.loops != [])
    ensures var r := LowerExpr(nm, s.cond, pool, n);
            && CleanExpr(r)
            && var e := BeginIf(nm, pool, n, r);
            var check := TranslateAll(r.steps);
            var first := |es.code| + |check| + 1;
            Run(es, Join(e, LowerBlock(s.thn, e.nm, e.pool, e.next, here))) ==
              Some(EmitterState(es.code + check + [JumpElseTo(Result(r), 0)] + CompileStmts(s.thn, nm, r.pool, r.next, first, 0).code,
                                es.ifs + [ActiveIf(|es.code| + |check|, -1, 0)],
                                AddBreaks(es.loops, BreaksIn(s.thn, nm, r.pool, r.next, first))))
    decreases s, 0
  {
    hide Run, NoMarkers, TranslateAll, LowerExpr, LowerBlock, Join, BeginIf, CompileStmts, BreaksIn;
    var r := LowerExpr(nm, s.cond, pool, n);
    var e := BeginIf(nm, pool, n, r);
    RunBeginIf(es, nm, pool, n, r);
    BeginContext(nm, pool, n, r);
    var check := TranslateAll(r.steps);
    var es1 := EmitterState(es.code + check + [JumpElseTo(Result(r), 0)], es.ifs + [ActiveIf(|es.code| + |check|, -1, 0)], es.loops);
    EmitBlockClean(s.thn, nm, r.pool, r.next, here, inLoop, es1);
    RunJoin(es, e, LowerBlock(s.thn, e.nm, e.pool, e.next, here), es1);
  }

  lemma BeginContext(nm: Names, pool: Pool, n: int, r: Lowered)
    requires r.addr.Some?
    ensures var e := BeginIf(nm, pool, n, r); e.nm == nm && e.pool == r.pool && e.next == r.next
    ensures var e := BeginLoop(nm, pool, n, r); e.nm == nm && e.pool == r.pool && e.next == r.next
  {
  }

  lemma {:induction false} EmitIfClean(s: Stmt, nm: Names, pool: Pool, n: int, here: int, inLoop: bool, es: EmitterState)
    requires s.If? && CleanStmt(s, nm, pool, n, inLoop) && (inLoop ==> es.loops != [])
    ensures Emits(es, LowerStmt(s, nm, pool, n, here), CompileStmt(s, nm, pool, n, |es.code|, 0).code,
                  BreaksOf(s, nm, pool, n, |es.code|))
    decreases s, 1
  {
    hide Run, NoMarkers, TranslateAll, LowerExpr, LowerBlock, Join, Connect, BeginIf, EndIf, CompileStmts, BreaksIn, EndIfStep, CleanStmts;
    EmitThen(s, nm, pool, n, here, inLoop, es);
    LowerThenClean(s, nm, pool, n, here, inLoop);
    var r := LowerExpr(nm, s.cond, pool, n);
    var e := BeginIf(nm, pool, n, r);
    var check := TranslateAll(r.steps);
    var t := CompileStmts(s.thn, nm, r.pool, r.next, |es.code| + |check| + 1, 0);
    var j := Join(e, LowerBlock(s.thn, e.nm, e.pool, e.next, here));
    var j' := Connect(j, here, here + 1);
    RunConnect(es, j, here, here + 1);
    if s.els.NoElse? {
      RunEndIf(es, j', here, here + 1, Run(es, j').value);
      CloseIf(es.code, check, Result(r), t.code, es.ifs, AddBreaks(es.loops, BreaksIn(s.thn, nm, r.pool, r.next, |es.code| + |check| + 1)));
    } else {
      EmitElseClean(s, nm, pool, n, here, inLoop, es, r, t, j');
    }
  }

  lemma RunConnect(es: EmitterState, e: Emitted, from: int, to: int)
    ensures Run(es, Connect(e, from, to)) == Run(es, e)
  {
    RunSame(es, e, Connect(e, from, to));
  }

  lemma {:induction false} EmitElseClean(
    s: Stmt, nm: Names, pool: Pool, n: int, here: int, inLoop: bool, es: EmitterState, r: Lowered, t: Compiled, j: Emitted)
    requires s.If? && s.els.Else? && CleanStmt(s, nm, pool, n, inLoop) && (inLoop ==> es.loops != [])
    requires r == LowerExpr(nm, s.cond, pool, n) && CleanExpr(r)
    requires t == CompileStmts(s.thn, nm, r.pool, r.next, |es.code| + |TranslateAll(r.steps)| + 1, 0)
    requires var e := BeginIf(nm, pool, n, r);
             var b := LowerBlock(s.thn, e.nm, e.pool, e.next, here);
             b.ok && j == Connect(Join(e, b), here, here + 1)
    requires j.blocks != [] && LowersTo(j, CompileStmts(s.thn, nm, r.pool, r.next, 0, 0), |j.blocks| - 1, j.links)
    requires var check := TranslateAll(r.steps);
             Run(es, j) == Some(EmitterState(es.code + check + [JumpElseTo(Result(r), 0)] + t.code,
                                es.ifs + [ActiveIf(|es.code| + |check|, -1, 0)],
                                AddBreaks(es.loops, BreaksIn(s.thn, nm, r.pool, r.next, |es.code| + |check| + 1))))
    ensures Emits(es, LowerStmt(s, nm, pool, n, here), CompileStmt(s, nm, pool, n, |es.code|, 0).code,
                  BreaksOf(s, nm, pool, n, |es.code|))
    decreases s, 0
  {
    hide Run, NoMarkers, TranslateAll, LowerExpr, LowerBlock, Join, Connect, BeginIf, BeginElse, EndElse, CompileStmts, BreaksIn, EndIfStep,
         AddBreaks;
    var check := TranslateAll(r.steps);
    var first := |es.code| + |check| + 1;
    StmtsShape(s.thn, nm, r.pool, r.next, 0, 0, first, 0);
    var es1 := Run(es, j).value;
    var alt := first + |t.code|;
    RunBeginElse(es, j, es1);
    BeginElseLowers(j, CompileStmts(s.thn, nm, r.pool, r.next, 0, 0), |j.blocks| - 1, j.links);
    LastOf(es.ifs, ActiveIf(|es.code| + |check|, -1, 0), ActiveIf(|es.code| + |check|, alt, 0));
    var a := BeginElse(j);
    var es2 := EmitterState(es1.code + [JumpTo(0), NOP], es.ifs + [ActiveIf(|es.code| + |check|, alt, 0)], es1.loops);
    var tb := BreaksIn(s.thn, nm, r.pool, r.next, first);
    var fb := BreaksIn(s.els.body, t.nm, t.pool, t.next, alt + 2);
    AddBreaksTwice(es.loops, tb, fb);
    var eHere := here + |a.blocks| - 1;
    EmitBlockClean(s.els.body, t.nm, t.pool, t.next, eHere, inLoop, es2);
    var f := LowerBlock(s.els.body, a.nm, a.pool, a.next, eHere);
    var cf := CompileStmts(s.els.body, t.nm, t.pool, t.next, alt + 2, 0);
    RunJoin(es, a, f, es2);
    var fId := if f.ok then eHere + 1 else -1;
    var es3 := EmitterState(es2.code + cf.code, es2.ifs, AddBreaks(es2.loops, fb));
    RunEndElse(es, Join(a, f), here, fId, es3);
    CloseElse(es.code, check, Result(r), t.code, cf.code, es.ifs, AddBreaks(es.loops, tb + fb));
    assert LowerStmt(s, nm, pool, n, here) == EndElse(Join(a, f), here, fId);
  }

  lemma {:induction false} EmitWhileClean(s: Stmt, nm: Names, pool: Pool, n: int, here: int, inLoop: bool, es: EmitterState)
    requires s.While? && CleanStmt(s, nm, pool, n, inLoop)
    ensures Emits(es, LowerStmt(s, nm, pool, n, here), CompileStmt(s, nm, pool, n, |es.code|, 0).code,
                  BreaksOf(s, nm, pool, n, |es.code|))
    decreases s, 1
  {
    hide Run, NoMarkers, TranslateAll, LowerExpr, LowerBlock, Join, BeginLoop, EndLoop, CompileStmts, BreaksIn, EndWhileStep;
    var r := LowerExpr(nm, s.check, pool, n);
    var e := BeginLoop(nm, pool, n, r);
    RunBeginLoop(es, nm, pool, n, r);
    BeginContext(nm, pool, n, r);
    var check := TranslateAll(r.steps);
    var first := |es.code| + 1 + |check| + 1;
    var loop := ActiveLoop([], [], |es.code|, first - 1, 0);
    var es1 := EmitterState(es.code + [NOP] + check + [JumpElseTo(Result(r), 0)], es.ifs, es.loops + [loop]);
    EmitBlockClean(s.body, nm, r.pool, r.next, here, true, es1);
    var b := LowerBlock(s.body, e.nm, e.pool, e.next, here);
    var c := CompileStmts(s.body, nm, r.pool, r.next, first, 0);
    var exit := first + |c.code| + 1;
    var brks := BreaksIn(s.body, nm, r.pool, r.next, first);
    RunJoin(es, e, b, es1);
    var loop' := loop.(brks := brks);
    AddToLast(es.loops, loop, brks);
    LastOf(es.loops, loop', loop'.(conts := [exit - 1]));
    var es2 := EmitterState(es1.code + c.code, es.ifs, es.loops + [loop']);
    var bId := if b.ok then here + 1 else -1;
    RunEndLoop(es, Join(e, b), here, bId, es2);
    StmtsRedirected(s.body, nm, r.pool, r.next, first, exit);
    assert loop'.conts + [|es2.code|] == [exit - 1];
    CloseLoop(es.code, check, Result(r), c.code, CompileStmts(s.body, nm, r.pool, r.next, first, exit).code, brks, es.ifs, es.loops, first, exit);
  }

  lemma AddToLast(loops: seq<ActiveLoop>, loop: ActiveLoop, brks: seq<int>)
    requires loop.brks == []
    ensures AddBreaks(loops + [loop], brks) == loops + [loop.(brks := brks)]
  {
    LastOf(loops, loop, loop.(brks := brks));
    assert [] + brks == brks;
  }

  lemma {:induction false} EmitBlockClean(ss: seq<Stmt>, nm: Names, pool: Pool, n: int, here: int, inLoop: bool, es: EmitterState)
    requires CleanStmts(ss, nm, pool, n, inLoop) && (inLoop ==> es.loops != [])
    ensures Emits(es, LowerBlock(ss, nm, pool, n, here), CompileStmts(ss, nm, pool, n, |es.code|, 0).code,
                  BreaksIn(ss, nm, pool, n, |es.code|))
    decreases ss, 4
  {
    hide Run, AddBlock, Join, LowerStmts;
    EmitStmtsClean(ss, nm, pool, n, here + 1, inLoop, es);
    RunStart(es, nm, pool, n);
    RunAddBlock(es, Start(nm, pool, n));
    RunJoin(es, AddBlock(Start(nm, pool, n)), LowerStmts(ss, nm, pool, n, here + 1), es);
  }

  lemma {:induction false} EmitStmtsClean(ss: seq<Stmt>, nm: Names, pool: Pool, n: int, here: int, inLoop: bool, es: EmitterState)
    requires CleanStmts(ss, nm, pool, n, inLoop) && (inLoop ==> es.loops != [])
    ensures Emits(es, LowerStmts(ss, nm, pool, n, here), CompileStmts(ss, nm, pool, n, |es.code|, 0).code,
                  BreaksIn(ss, nm, pool, n, |es.code|))
    decreases ss, 3
  {
    hide Run, Join, LowerStmt, CompileStmt, CleanStmt, BreaksOf, AddBreaks, LowersTo;
    if ss == [] {
      EmitsNothing(es, nm, pool, n);
    } else {
      EmitStmtClean(ss[0], nm, pool, n, here, inLoop, es);
      LowerStmtClean(ss[0], nm, pool, n, here, inLoop);
      var h := LowerStmt(ss[0], nm, pool, n, here);
      var c := CompileStmt(ss[0], nm, pool, n, |es.code|, 0);
      StmtShape(ss[0], nm, pool, n, 0, 0, |es.code|, 0);
      LowersOk(h, CompileStmt(ss[0], nm, pool, n, 0, 0), NewBlocks(ss[0]), LinksOf(ss[0], here));
      var es1 := EmitterState(es.code + c.code, es.ifs, AddBreaks(es.loops, BreaksOf(ss[0], nm, pool, n, |es.code|)));
      AddBreaksTwice(es.loops, BreaksOf(ss[0], nm, pool, n, |es.code|), BreaksIn(ss[1..], c.nm, c.pool, c.next, |es1.code|));
      EmitStmtsClean(ss[1..], c.nm, c.pool, c.next, here + |h.blocks| - 1, inLoop, es1);
      RunJoin(es, h, LowerStmts(ss[1..], c.nm, c.pool, c.next, here + |h.blocks| - 1), es1);
      var q := CompileStmts(ss[1..], c.nm, c.pool, c.next, |es1.code|, 0);
      assert es.code + c.code + q.code == es.code + (c.code + q.code);
    }
  }

  lemma EmitsNothing(es: EmitterState, nm: Names, pool: Pool, n: int)
    ensures Emits(es, Start(nm, pool, n), [], [])
  {
    RunStart(es, nm, pool, n);
    assert es.code + [] == es.code;
  }

  lemma LowersOk(e: Emitted, c: Compiled, blocks: nat, links: seq<Link>)
    requires LowersTo(e, c, blocks, links)
    ensures e.ok && e.nm == c.nm && e.pool == c.pool && e.next == c.next
  {
  }
}
