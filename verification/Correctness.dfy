/** The compiler preserves meaning, in both directions, for every program of the fragment
    and for runs of any length. */
module Correctness {
  import opened Values
  import opened Syntax
  import opened Semantics
  import opened ExprLowering
  import opened Fragment
  import opened LoweringFacts
  import opened Compositional
  import opened CompileFacts
  import opened SimulationBase
  import opened SimulationControl
  import opened Compiler
  import opened Emission
  import opened CompilerFacts
  import opened DefiniteAssignment
  import S = Simulation
  import Ir
  import M = Machine

  lemma WellFormedParts(p: Program, natives: set<string>)
    requires WellFormed(p, natives)
    ensures var fs := Functions(p);
            && NamesOk(fs) && DistinctFunctions(fs)
            && (forall i | 0 <= i < |fs| :: OkFunction(Signature(fs, natives), fs[i]))
            && FindFunction(fs, "main") < |fs| && fs[FindFunction(fs, "main")].params == []
  {
    hide OkFunction, Functions, FindFunction, IsIdent;
  }

  lemma NoFunctions()
    ensures DistinctFunctions([])
  {
  }

  lemma Prepassed(p: Program) returns (pre: Prepass)
    requires DistinctFunctions(Functions(p)) && FindFunction(Functions(p), "main") < |Functions(p)|
    ensures CollectFunctions(p, Prepass(map[], 0, -1)) == Some(pre)
    ensures Collected(Functions(p), pre) && pre.mainId == FindFunction(Functions(p), "main")
  {
    hide CollectFunctions, DistinctFunctions, Functions;
    assert [] + Functions(p) == Functions(p);
    NoFunctions();
    CollectExactly(p, [], Prepass(map[], 0, -1));
    pre := CollectFunctions(p, Prepass(map[], 0, -1)).value;
  }

  /** The second pass, from the tables left by the first. */
  lemma Lowered(p: Program, natives: map<string, int>) returns (u: Unit, pools: seq<Pool>)
    requires WellFormed(p, natives.Keys)
    ensures var sg := Signature(Functions(p), natives.Keys);
            && LowerProgram(natives, p) == Some(FullIr(u.graphs, u.pool.consts, FindFunction(Functions(p), "main")))
            && |pools| == |sg.fs| && Built(sg, natives, u, pools)
  {
    hide *;
    WellFormedParts(p, natives.Keys);
    var sg := Signature(Functions(p), natives.Keys);
    var pre := Prepassed(p);
    PrepassPool(sg.fs, pre);
    var u0 := Unit([], Pool(pre.globals, []), 0);
    assert sg.fs[0..] == Functions(p);
    BuiltNothing(sg, natives, u0);
    pools := LowerRest(sg, natives, p, u0, []);
    u := LowerDecls(natives, p, u0).value;
    LowerProgramIs(natives, p, pre, u, sg, pools);
  }

  lemma BuiltNothing(sg: Signature, natives: map<string, int>, u: Unit)
    requires GoodPool(sg.fs, u.pool) && u.errors == 0 && u.graphs == []
    ensures Built(sg, natives, u, [])
  {
  }

  lemma LowerProgramIs(natives: map<string, int>, p: Program, pre: Prepass, u: Unit, sg: Signature, pools: seq<Pool>)
    requires CollectFunctions(p, Prepass(map[], 0, -1)) == Some(pre)
    requires LowerDecls(natives, p, Unit([], Pool(pre.globals, []), 0)) == Some(u) && Built(sg, natives, u, pools)
    ensures LowerProgram(natives, p) == Some(FullIr(u.graphs, u.pool.consts, pre.mainId))
  {
    hide CollectFunctions, LowerDecls, Lowers, GoodPool;
  }

  lemma BuiltWhole(sg: Signature, natives: map<string, int>, u: Unit, pools: seq<Pool>)
    requires Built(sg, natives, u, pools) && |pools| == |sg.fs| && forall i | 0 <= i < |sg.fs| :: OkFunction(sg, sg.fs[i])
    ensures AllShaped(natives, sg.fs, pools, u.graphs) && forall i | 0 <= i < |sg.fs| :: NothingLost(sg.fs[i].body, true)
  {
    hide GoodPool, OkFunction, Shaped;
    forall i | 0 <= i < |sg.fs| ensures Shaped(natives, sg.fs[i], pools[i], u.graphs[i]) && NothingLost(sg.fs[i].body, true) {
      assert Lowers(sg, natives, sg.fs[i], pools[i], u.graphs[i], u.pool.consts);
      WholeBody(sg, sg.fs[i]);
    }
  }

  lemma WholeBody(sg: Signature, f: Fun)
    requires OkFunction(sg, f)
    ensures NothingLost(f.body, true)
  {
  }

  /** The local table when the lowering of a function ends. */
  function FinalNames(natives: map<string, int>, f: Fun, pool: Pool): map<string, Ir.Addr> {
    CompiledIn(natives, f, pool).nm.locals
  }

  /** What a well-formed program is compiled to. */
  lemma CompileLinked(p: Program, natives: map<string, int>) returns (l: Linked)
    requires WellFormed(p, natives.Keys)
    ensures Compile(natives, p) == Some(l.code) && WellLinked(l)
    ensures l.sg == Signature(Functions(p), natives.Keys) && l.natives == natives
    ensures l.code.entry == FindFunction(Functions(p), "main")
  {
    hide *;
    WellFormedParts(p, natives.Keys);
    var sg := Signature(Functions(p), natives.Keys);
    var u, pools := Lowered(p, natives);
    BuiltWhole(sg, natives, u, pools);
    EmitAllChunks(natives, sg.fs, pools, u.graphs, [], []);
    var chunks := EmitChunks(u.graphs, [], EmitterState([], [], [])).value;
    CompileIs(natives, p, FullIr(u.graphs, u.pool.consts, FindFunction(sg.fs, "main")), chunks);
    var tables := seq(|sg.fs|, i requires 0 <= i < |sg.fs| => FinalNames(natives, sg.fs[i], pools[i]));
    l := Linked(sg, natives, pools, tables, M.Code(chunks, u.pool.consts, FindFunction(sg.fs, "main")));
    ChunksPlaced(l, u);
    LinkedWell(l);
  }

  lemma ChunksPlaced(l: Linked, u: Unit)
    requires |l.sg.fs| == |l.pools| == |l.code.chunks| == |l.tables| && l.code.consts == u.pool.consts
    requires forall i | 0 <= i < |l.sg.fs| :: l.tables[i] == FinalNames(l.natives, l.sg.fs[i], l.pools[i])
    requires forall i | 0 <= i < |l.sg.fs| :: l.code.chunks[0 + i] == CompiledBody(l.natives, l.sg.fs[i], l.pools[i])
    requires Built(l.sg, l.natives, u, l.pools)
    ensures forall i | 0 <= i < |l.sg.fs| :: FunctionPlaced(l, i)
  {
    hide *;
    forall i | 0 <= i < |l.sg.fs| ensures FunctionPlaced(l, i) {
      LowersNth(l.sg, l.natives, u, l.pools, i);
      assert l.code.chunks[0 + i] == CompiledBody(l.natives, l.sg.fs[i], l.pools[i]);
      ChunkPlaced(l, i, u.graphs[i]);
    }
  }

  lemma CompileIs(natives: map<string, int>, p: Program, ir: FullIr, chunks: seq<M.Chunk>)
    requires LowerProgram(natives, p) == Some(ir) && EmitChunks(ir.graphs, [], EmitterState([], [], [])) == Some(chunks)
    ensures Compile(natives, p) == Some(M.Code(chunks, ir.consts, ir.mainId))
  {
    hide LowerProgram, EmitChunks;
  }

  lemma LinkedWell(l: Linked)
    requires NamesOk(l.sg.fs) && l.natives.Keys == l.sg.natives && |l.sg.fs| == |l.pools| == |l.code.chunks| == |l.tables|
    requires forall i | 0 <= i < |l.sg.fs| :: OkFunction(l.sg, l.sg.fs[i])
    requires forall i | 0 <= i < |l.sg.fs| :: FunctionPlaced(l, i)
    ensures WellLinked(l)
  {
    hide NamesOk, OkFunction, FunctionPlaced;
  }

  lemma LowersNth(sg: Signature, natives: map<string, int>, u: Unit, pools: seq<Pool>, i: nat)
    requires Built(sg, natives, u, pools) && i < |sg.fs| == |pools|
    ensures |sg.fs| == |u.graphs| && Lowers(sg, natives, sg.fs[i], pools[i], u.graphs[i], u.pool.consts)
  {
    hide Lowers, GoodPool;
  }

  lemma ChunkPlaced(l: Linked, i: nat, g: Graph)
    requires i < |l.sg.fs| == |l.pools| == |l.code.chunks| == |l.tables|
    requires Lowers(l.sg, l.natives, l.sg.fs[i], l.pools[i], g, l.code.consts)
    requires l.code.chunks[i] == CompiledBody(l.natives, l.sg.fs[i], l.pools[i])
    requires l.tables[i] == FinalNames(l.natives, l.sg.fs[i], l.pools[i])
    ensures FunctionPlaced(l, i)
  {
  }

  // ---------------------------------------------------------------- runs

  /** The machine after `k` rounds on the given code and initial memory. */
  function After(code: M.Code, mem: map<int, Value>, k: nat): M.State {
    M.Steps(code, M.Initial(code, mem), k)
  }

  /** How `k` rounds of the machine show the outcome of a source run with the given fuel. */
  ghost predicate Observes(code: M.Code, mem: map<int, Value>, k: nat, fuel: nat, res: EvalResult) {
    var t := After(code, mem, k);
    match res
    case Val(v, h) => M.Finished(t) && M.Read(t.mem, 0) == v && t.heap == h
    case Stops(MathError) => t.status == M.MathError
    case Stops(OffEnd) => t.status == M.RanOff
    case Stops(Timeout) => fuel <= k + 1 && M.Running(t)
    case Stops(Stuck) => false
  }

  /** `main` starts with all registers of its window free. */
  lemma MainReady(l: Linked, mem: map<int, Value>)
    requires WellLinked(l) && l.code.entry == FindFunction(l.sg.fs, "main") < |l.sg.fs|
    requires l.sg.fs[l.code.entry].params == []
    ensures |l.sg.fs| == |l.pools| == |l.code.chunks|
    ensures var f := l.sg.fs[l.code.entry];
            var nm, pool := BodyNames(l.natives, f), l.pools[l.code.entry];
            && S.BlockReady(l, M.Initial(l.code, mem), f.body, nm, pool, map[], 0, 1, false, 0)
            && |CompileStmts(f.body, nm, pool, 0, 0, 0).code| == |l.code.chunks[l.code.entry]|
  {
    hide FindFunction, CompileStmts, OkStmts, GoodPool, GoodNames, NamesOk, NothingLost, WellLinked, FreshName, Distinct, Ahead, Table;
    var i := l.code.entry;
    var f := l.sg.fs[i];
    S.LinkedFunction(l, i);
    S.BodyAhead(l, i);
    assert l.code.chunks[i][0..|l.code.chunks[i]|] == l.code.chunks[i];
  }

  lemma MainBegins(l: Linked, mem: map<int, Value>, fuel: nat) returns (k: nat)
    requires WellLinked(l) && l.code.entry == FindFunction(l.sg.fs, "main") < |l.sg.fs| == |l.pools|
    requires l.sg.fs[l.code.entry].params == []
    ensures var f := l.sg.fs[l.code.entry];
            S.BlockSimulated(l, M.Initial(l.code, mem), k, f.body, BodyNames(l.natives, f), l.pools[l.code.entry], map[], 0, 1, false, 0, fuel)
  {
    hide *;
    MainReady(l, mem);
    var f := l.sg.fs[l.code.entry];
    k := S.SimulateStmts(l, M.Initial(l.code, mem), f.body, BodyNames(l.natives, f), l.pools[l.code.entry], map[], 0, 1, false, 0, fuel);
  }

  /** From the body of `main` to the outcome of the program. */
  lemma MainEnds(l: Linked, mem: map<int, Value>, k: nat, fuel: nat) returns (k': nat)
    requires |l.sg.fs| == |l.pools| == |l.code.chunks| && l.code.entry == FindFunction(l.sg.fs, "main") < |l.sg.fs|
    requires var f := l.sg.fs[l.code.entry];
             var nm, pool := BodyNames(l.natives, f), l.pools[l.code.entry];
             && f.params == []
             && S.BlockSimulated(l, M.Initial(l.code, mem), k, f.body, nm, pool, map[], 0, 1, false, 0, fuel)
             && |CompileStmts(f.body, nm, pool, 0, 0, 0).code| == |l.code.chunks[l.code.entry]|
    ensures var res := Invoke(l.sg.fs, "main", [], [], fuel + 1);
            res != Stops(Stuck) ==> Observes(l.code, mem, k', fuel + 1, res)
  {
    hide CompileStmts, Exec, M.Steps, FindFunction, BodyNames;
    var f := l.sg.fs[l.code.entry];
    assert Bind(f.params, []) == map[];
    k' := k;
    if Exec(l.sg.fs, f.body, map[], [], fuel).Next? {
      S.RunsOff(l.code, M.Initial(l.code, mem), k, After(l.code, mem, k));
      k' := k + 1;
    }
  }

  // ---------------------------------------------------------------- main theorems

  /** The compiler accepts every well-formed program, and for any fuel the machine shows the
      outcome of the source run: the same value and heap, the same failure, or a run that is
      still going after as many rounds as the source had fuel. Only a source run that reads a
      name without a value has no counterpart. */
  lemma MeaningPreserved(p: Program, natives: map<string, int>, mem: map<int, Value>, fuel: nat) returns (k: nat)
    requires WellFormed(p, natives.Keys)
    ensures Compile(natives, p).Some?
    ensures RunMain(p, fuel) != Stops(Stuck) ==> Observes(Compile(natives, p).value, mem, k, fuel, RunMain(p, fuel))
  {
    hide *;
    var l := CompileLinked(p, natives);
    WellFormedParts(p, natives.Keys);
    if fuel == 0 {
      NoFuel(l, mem, p);
      k := 0;
    } else {
      MainReady(l, mem);
      k := MainBegins(l, mem, fuel - 1);
      k := MainEnds(l, mem, k, fuel - 1);
      RunMainIs(p, fuel);
    }
  }

  lemma RunMainIs(p: Program, fuel: nat)
    ensures RunMain(p, fuel) == Invoke(Functions(p), "main", [], [], fuel)
  {
    hide Functions, Invoke;
  }

  lemma NoFuel(l: Linked, mem: map<int, Value>, p: Program)
    requires l.sg.fs == Functions(p) && l.code.entry == FindFunction(Functions(p), "main") < |Functions(p)|
    requires Functions(p)[l.code.entry].params == []
    ensures Observes(l.code, mem, 0, 0, RunMain(p, 0))
  {
    hide Functions, FindFunction;
  }

  /** Two rounds at which the machine has stopped show the same state. */
  lemma SameEnd(code: M.Code, mem: map<int, Value>, j: nat, k: nat)
    requires !M.Running(After(code, mem, j)) && !M.Running(After(code, mem, k))
    ensures After(code, mem, j) == After(code, mem, k)
  {
    hide M.Running, M.Steps, M.Initial;
    var s := M.Initial(code, mem);
    if j <= k {
      M.StepsAdd(code, s, j, k - j);
      M.StoppedStays(code, After(code, mem, j), k - j);
    } else {
      M.StepsAdd(code, s, k, j - k);
      M.StoppedStays(code, After(code, mem, k), j - k);
    }
  }

  /** A machine that has stopped after `k` rounds shows the outcome of the source run with a
      little more fuel. */
  lemma StoppedBySource(p: Program, natives: map<string, int>, mem: map<int, Value>, k: nat)
    requires WellFormed(p, natives.Keys) && Compile(natives, p).Some?
    requires !M.Running(After(Compile(natives, p).value, mem, k)) && RunMain(p, k + 2) != Stops(Stuck)
    ensures Observes(Compile(natives, p).value, mem, k, k + 2, RunMain(p, k + 2)) && RunMain(p, k + 2) != Stops(Timeout)
  {
    hide WellFormed, Compile, RunMain, M.Steps, M.Initial;
    var code := Compile(natives, p).value;
    var j := MeaningPreserved(p, natives, mem, k + 2);
    if RunMain(p, k + 2) == Stops(Timeout) {
      M.RunningBefore(code, M.Initial(code, mem), k, j);
    } else {
      SameEnd(code, mem, j, k);
    }
  }

  /** Some number of rounds shows the outcome. */
  ghost predicate Shown(code: M.Code, mem: map<int, Value>, fuel: nat, res: EvalResult) {
    exists k: nat :: Observes(code, mem, k, fuel, res)
  }

  /** With every name definitely assigned, source and machine correspond in both directions. */
  lemma Corresponds(p: Program, natives: map<string, int>, mem: map<int, Value>)
    requires WellFormed(p, natives.Keys) && DefinitelyAssigned(p)
    ensures Compile(natives, p).Some?
    ensures forall fuel: nat :: Shown(Compile(natives, p).value, mem, fuel, RunMain(p, fuel))
    ensures forall k: nat | !M.Running(After(Compile(natives, p).value, mem, k)) ::
              Observes(Compile(natives, p).value, mem, k, k + 2, RunMain(p, k + 2)) && RunMain(p, k + 2) != Stops(Timeout)
  {
    hide WellFormed, DefinitelyAssigned, Compile, RunMain, After, Observes;
    var k0 := MeaningPreserved(p, natives, mem, 0);
    var code := Compile(natives, p).value;
    forall fuel: nat ensures Shown(code, mem, fuel, RunMain(p, fuel)) {
      NeverStuck(p, natives.Keys, fuel);
      var k := MeaningPreserved(p, natives, mem, fuel);
      assert Observes(code, mem, k, fuel, RunMain(p, fuel));
    }
    forall k: nat | !M.Running(After(code, mem, k))
      ensures Observes(code, mem, k, k + 2, RunMain(p, k + 2)) && RunMain(p, k + 2) != Stops(Timeout)
    {
      NeverStuck(p, natives.Keys, k + 2);
      StoppedBySource(p, natives, mem, k);
    }
  }

  /** The machine returns `v` with heap `h` in `m_memory[0]` exactly if the source does. */
  lemma ReturnsExactly(p: Program, natives: map<string, int>, mem: map<int, Value>, v: Value, h: Heap)
    requires WellFormed(p, natives.Keys) && DefinitelyAssigned(p)
    ensures Compile(natives, p).Some?
    ensures var code := Compile(natives, p).value;
            (exists k: nat :: M.Finished(After(code, mem, k)) && M.Read(After(code, mem, k).mem, 0) == v && After(code, mem, k).heap == h)
            <==> (exists fuel: nat :: RunMain(p, fuel) == Val(v, h))
  {
    hide WellFormed, DefinitelyAssigned, Compile, RunMain, M.Steps, M.Initial, After;
    Corresponds(p, natives, mem);
    var code := Compile(natives, p).value;
    if k: nat :| M.Finished(After(code, mem, k)) && M.Read(After(code, mem, k).mem, 0) == v && After(code, mem, k).heap == h {
      assert RunMain(p, k + 2) == Val(v, h);
    }
    if fuel: nat :| RunMain(p, fuel) == Val(v, h) {
      assert Shown(code, mem, fuel, RunMain(p, fuel));
      var k: nat :| Observes(code, mem, k, fuel, RunMain(p, fuel));
      assert M.Finished(After(code, mem, k));
    }
  }

  /** The machine stops with a given failure exactly if the source does: a math error, or
      running off the end of a function. */
  lemma FailsExactly(p: Program, natives: map<string, int>, mem: map<int, Value>, why: Stop)
    requires WellFormed(p, natives.Keys) && DefinitelyAssigned(p) && why in {MathError, OffEnd}
    ensures Compile(natives, p).Some?
    ensures var code := Compile(natives, p).value;
            (exists k: nat :: After(code, mem, k).status == (if why == MathError then M.MathError else M.RanOff))
            <==> (exists fuel: nat :: RunMain(p, fuel) == Stops(why))
  {
    hide WellFormed, DefinitelyAssigned, Compile, RunMain, M.Steps, M.Initial, After;
    Corresponds(p, natives, mem);
    var code := Compile(natives, p).value;
    var status := if why == MathError then M.MathError else M.RanOff;
    if k: nat :| After(code, mem, k).status == status {
      assert RunMain(p, k + 2) == Stops(why);
    }
    if fuel: nat :| RunMain(p, fuel) == Stops(why) {
      assert Shown(code, mem, fuel, RunMain(p, fuel));
      var k: nat :| Observes(code, mem, k, fuel, RunMain(p, fuel));
      assert After(code, mem, k).status == status;
    }
  }

  /** The machine runs forever exactly if no fuel suffices for the source. */
  lemma DivergesExactly(p: Program, natives: map<string, int>, mem: map<int, Value>)
    requires WellFormed(p, natives.Keys) && DefinitelyAssigned(p)
    ensures Compile(natives, p).Some?
    ensures (forall k: nat :: M.Running(After(Compile(natives, p).value, mem, k)))
            <==> (forall fuel: nat :: RunMain(p, fuel) == Stops(Timeout))
  {
    hide WellFormed, DefinitelyAssigned, Compile, RunMain, M.Steps, M.Initial, After;
    Corresponds(p, natives, mem);
    var code := Compile(natives, p).value;
    if k: nat :| !M.Running(After(code, mem, k)) {
      assert RunMain(p, k + 2) != Stops(Timeout);
    }
    if fuel: nat :| RunMain(p, fuel) != Stops(Timeout) {
      assert Shown(code, mem, fuel, RunMain(p, fuel));
      var k: nat :| Observes(code, mem, k, fuel, RunMain(p, fuel));
      assert !M.Running(After(code, mem, k));
    }
  }

  /** No reachable state of a compiled program has an operand, memory or opcode error: the
      run is going, has returned, has met a math error or has run off a function. */
  lemma OnlySourceFailures(p: Program, natives: map<string, int>, mem: map<int, Value>, k: nat)
    requires WellFormed(p, natives.Keys) && DefinitelyAssigned(p)
    ensures Compile(natives, p).Some? && After(Compile(natives, p).value, mem, k).status in {M.Ok, M.MathError, M.RanOff}
  {
    hide WellFormed, DefinitelyAssigned, Compile, RunMain, M.Steps, M.Initial, After;
    Corresponds(p, natives, mem);
    if !M.Running(After(Compile(natives, p).value, mem, k)) {
      assert Observes(Compile(natives, p).value, mem, k, k + 2, RunMain(p, k + 2));
    }
  }

  /** The exit status of a finished run: success exactly if `main` returned the integer 0. */
  predicate ExitsOk(t: M.State) {
    M.Finished(t) && ValueEquals(M.Read(t.mem, 0), Int(0))
  }

  lemma ExitStatus(p: Program, natives: map<string, int>, mem: map<int, Value>)
    requires WellFormed(p, natives.Keys) && DefinitelyAssigned(p)
    ensures Compile(natives, p).Some?
    ensures (exists k: nat :: ExitsOk(After(Compile(natives, p).value, mem, k)))
            <==> (exists fuel: nat :: RunMain(p, fuel).Val? && RunMain(p, fuel).v == Int(0))
  {
    hide WellFormed, DefinitelyAssigned, Compile, RunMain, M.Steps, M.Initial, After;
    Corresponds(p, natives, mem);
    var code := Compile(natives, p).value;
    if k: nat :| ExitsOk(After(code, mem, k)) {
      assert RunMain(p, k + 2).Val? && RunMain(p, k + 2).v == Int(0);
    }
    if fuel: nat :| RunMain(p, fuel).Val? && RunMain(p, fuel).v == Int(0) {
      assert Shown(code, mem, fuel, RunMain(p, fuel));
      var k: nat :| Observes(code, mem, k, fuel, RunMain(p, fuel));
      assert ExitsOk(After(code, mem, k));
    }
  }
}
