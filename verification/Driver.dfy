/** The pipeline end to end, with the mutable components: convert, emit, run. */
module Driver {
  import opened Values
  import opened Syntax
  import opened Semantics
  import opened ExprLowering
  import opened Fragment
  import opened Emission
  import opened Compiler
  import opened Correctness
  import opened FuelFacts
  import opened DefiniteAssignment
  import AstConversion
  import Emitter
  import Engine
  import M = Machine

  /** What can be emitted at all can be emitted by the walk. */
  lemma {:induction false} EmittableWalks(graphs: seq<Graph>, chunks: seq<M.Chunk>, es: EmitterState)
    requires EmitChunks(graphs, chunks, es).Some?
    ensures Emitter.AllWalkable(graphs, es)
    decreases |graphs|
  {
    hide EmitSteps, Emitter.Walkable;
    if graphs != [] {
      Emitter.WalkableExactly(graphs[0], [0], {}, EmitterState([], es.ifs, es.loops));
      var es' := EmitChunk(graphs[0], es).value;
      EmittableWalks(graphs[1..], chunks + [es'.code], es');
    }
  }

  lemma CompiledWalks(natives: map<string, int>, p: Program)
    requires Compile(natives, p).Some?
    ensures LowerProgram(natives, p).Some? && Emitter.AllWalkable(LowerProgram(natives, p).value.graphs, EmitterState([], [], []))
  {
    hide LowerProgram, EmitChunks, Emitter.AllWalkable;
    EmittableWalks(LowerProgram(natives, p).value.graphs, [], EmitterState([], [], []));
  }

  /** The converter and the emitter produce the code that the compiler functions define. */
  method Build(natives: map<string, int>, p: Program) returns (code: M.Code)
    requires Compile(natives, p).Some?
    ensures Compile(natives, p) == Some(code)
  {
    hide LowerProgram, EmitProgram, Emitter.AllWalkable;
    CompiledWalks(natives, p);
    var conversion := new AstConversion.Conversion(natives);
    var ir := conversion.Convert(p);
    var emitter := new Emitter.Emitter();
    var result := emitter.Emit(ir.value);
    code := result.value;
  }

  /** A run that stays within its buffers and ends exits as the source program says. */
  method BuildAndRun(natives: map<string, int>, p: Program, limit: nat, maxDepth: nat, ghost rounds: nat) returns (exit: Engine.Exit)
    requires WellFormed(p, natives.Keys) && DefinitelyAssigned(p) && Compile(natives, p).Some? && limit > 0 && maxDepth > 0
    requires var code := Compile(natives, p).value;
             var mem := Engine.Registers(seq(limit, _ => Dud));
             && !M.Running(After(code, mem, rounds))
             && forall k | 0 <= k < rounds :: Engine.Fits(code, After(code, mem, k), limit, maxDepth)
    ensures exit == Engine.ExitOk <==> exists fuel: nat :: RunMain(p, fuel).Val? && RunMain(p, fuel).v == Int(0)
    ensures exit == Engine.UserError <==> exists fuel: nat :: RunMain(p, fuel).Val? && RunMain(p, fuel).v != Int(0)
    ensures exit == Engine.Failed(M.MathError) <==> exists fuel: nat :: RunMain(p, fuel) == Stops(MathError)
  {
    hide WellFormed, DefinitelyAssigned, Compile, RunMain, M.Steps, Engine.Fits;
    var code := Build(natives, p);
    var engine := new Engine.Engine(code, limit, maxDepth);
    ghost var mem := Engine.Registers(engine.memory[..]);
    assert engine.memory[..] == seq(limit, _ => Dud);
    forall k | 0 <= k < rounds ensures Engine.Fits(code, M.Steps(code, engine.Now(), k), limit, maxDepth) {
      assert Engine.Fits(code, After(code, mem, k), limit, maxDepth);
    }
    exit := engine.Run(rounds);
    ExitsAsSource(p, natives, mem, rounds, exit);
  }

  /** The exit code of a run that has stopped. */
  function ExitOf(t: M.State): Engine.Exit {
    if t.status != M.Ok then Engine.Failed(t.status)
    else if ValueEquals(M.Read(t.mem, 0), Int(0)) then Engine.ExitOk else Engine.UserError
  }

  lemma ExitsAsSource(p: Program, natives: map<string, int>, mem: map<int, Value>, rounds: nat, exit: Engine.Exit)
    requires WellFormed(p, natives.Keys) && DefinitelyAssigned(p) && Compile(natives, p).Some?
    requires var t := After(Compile(natives, p).value, mem, rounds); !M.Running(t) && exit == ExitOf(t)
    ensures exit == Engine.ExitOk <==> exists fuel: nat :: RunMain(p, fuel).Val? && RunMain(p, fuel).v == Int(0)
    ensures exit == Engine.UserError <==> exists fuel: nat :: RunMain(p, fuel).Val? && RunMain(p, fuel).v != Int(0)
    ensures exit == Engine.Failed(M.MathError) <==> exists fuel: nat :: RunMain(p, fuel) == Stops(MathError)
  {
    hide WellFormed, DefinitelyAssigned, Compile, RunMain, M.Steps, M.Initial, After;
    var code := Compile(natives, p).value;
    Corresponds(p, natives, mem);
    var fuel := rounds + 2;
    forall other: nat | RunMain(p, other) != Stops(Timeout) ensures Same(RunMain(p, other), RunMain(p, fuel)) {
      OutcomeUnique(p, other, fuel);
    }
  }

  /** Equal outcomes. */
  ghost predicate Same(a: EvalResult, b: EvalResult) {
    a == b
  }
}
