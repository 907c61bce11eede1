/** The pipeline on every program whose lowering meets no error, calls and conditions of any
    form included: the one-pass emission over basic blocks gives the code of the compositional
    compiler. */
module CleanPrograms {
  import opened Values
  import opened Syntax
  import opened ExprLowering
  import opened Fragment
  import opened LoweringFacts
  import opened Compositional
  import opened CompileFacts
  import opened CleanLowering
  import opened Emission
  import opened Compiler
  import opened CompilerFacts
  import opened Correctness
  import M = Machine

  /** The constants that each function finds. */
  function Pools(natives: map<string, int>, fs: seq<Fun>, pool: Pool): (r: seq<Pool>)
    ensures |r| == |fs|
  {
    if fs == [] then [] else [pool] + Pools(natives, fs[1..], CompiledIn(natives, fs[0], pool).pool)
  }

  function PoolAfter(natives: map<string, int>, fs: seq<Fun>, pool: Pool): Pool {
    if fs == [] then pool else PoolAfter(natives, fs[1..], CompiledIn(natives, fs[0], pool).pool)
  }

  /** One compositional chunk per function. */
  function Bodies(natives: map<string, int>, fs: seq<Fun>, pool: Pool): (r: seq<M.Chunk>)
    ensures |r| == |fs|
  {
    if fs == [] then []
    else [CompiledIn(natives, fs[0], pool).code] + Bodies(natives, fs[1..], CompiledIn(natives, fs[0], pool).pool)
  }

  /** Parameters are distinct and no statement meets an error. */
  predicate CleanFunctions(natives: map<string, int>, fs: seq<Fun>, pool: Pool) {
    fs == [] ||
    (&& Distinct(fs[0].params)
     && CleanStmts(fs[0].body, BodyNames(natives, fs[0]), pool, |fs[0].params|, false)
     && CleanFunctions(natives, fs[1..], CompiledIn(natives, fs[0], pool).pool))
  }

  lemma {:induction false} BodiesAt(natives: map<string, int>, fs: seq<Fun>, pool: Pool, i: nat)
    requires i < |fs|
    ensures Bodies(natives, fs, pool)[i] == CompiledBody(natives, fs[i], Pools(natives, fs, pool)[i])
    decreases fs
  {
    hide CompiledIn;
    if i > 0 {
      BodiesAt(natives, fs[1..], CompiledIn(natives, fs[0], pool).pool, i - 1);
    }
  }

  lemma {:induction false} ShapeRest(natives: map<string, int>, p: Program, u: Unit)
    requires CleanFunctions(natives, Functions(p), u.pool)
    ensures var fs, r := Functions(p), LowerDecls(natives, p, u);
            && r.Some? && r.value.errors == u.errors && r.value.pool == PoolAfter(natives, fs, u.pool)
            && |r.value.graphs| == |u.graphs| + |fs| && r.value.graphs[..|u.graphs|] == u.graphs
            && AllShaped(natives, fs, Pools(natives, fs, u.pool), r.value.graphs[|u.graphs|..])
    decreases p
  {
    hide LowerFunction, CleanStmts, CompiledIn, Shaped, Distinct;
    if p == [] {
    } else if p[0].Function? {
      var f, fs := p[0].fun, Functions(p);
      assert fs[0] == f && fs[1..] == Functions(p[1..]);
      ShapeOne(natives, f, u);
      var u' := LowerFunction(natives, f, u).value;
      ShapeRest(natives, p[1..], u');
      Joined(natives, fs, u, u', LowerDecls(natives, p, u).value);
    } else {
      assert [] + Functions(p[1..]) == Functions(p[1..]);
      ShapeRest(natives, p[1..], u);
    }
  }

  lemma Joined(natives: map<string, int>, fs: seq<Fun>, u: Unit, u': Unit, r: Unit)
    requires fs != [] && u'.pool == CompiledIn(natives, fs[0], u.pool).pool
    requires |u'.graphs| == |u.graphs| + 1 && u'.graphs[..|u.graphs|] == u.graphs && Shaped(natives, fs[0], u.pool, u'.graphs[|u.graphs|])
    requires |r.graphs| == |u'.graphs| + |fs[1..]| && r.graphs[..|u'.graphs|] == u'.graphs
    requires AllShaped(natives, fs[1..], Pools(natives, fs[1..], u'.pool), r.graphs[|u'.graphs|..])
    ensures r.graphs[..|u.graphs|] == u.graphs
    ensures AllShaped(natives, fs, Pools(natives, fs, u.pool), r.graphs[|u.graphs|..])
  {
    hide CompiledIn, Shaped;
    assert r.graphs[..|u.graphs|] == r.graphs[..|u'.graphs|][..|u.graphs|];
    assert r.graphs[|u.graphs|] == r.graphs[..|u'.graphs|][|u.graphs|];
    var graphs, pools := r.graphs[|u.graphs|..], Pools(natives, fs, u.pool);
    forall i | 0 <= i < |fs| ensures Shaped(natives, fs[i], pools[i], graphs[i]) {
      if i > 0 {
        assert fs[1..][i - 1] == fs[i] && graphs[i] == r.graphs[|u'.graphs|..][i - 1];
        assert pools[i] == Pools(natives, fs[1..], u'.pool)[i - 1];
      }
    }
  }

  predicate Whole(fs: seq<Fun>) {
    forall i | 0 <= i < |fs| :: NothingLost(fs[i].body, true)
  }

  /** Each chunk was emitted for its graph, after whatever came before. */
  lemma {:induction false} ChunksEmitted(graphs: seq<Graph>, chunks: seq<M.Chunk>, es: EmitterState, i: nat) returns (at: EmitterState)
    requires EmitChunks(graphs, chunks, es).Some? && i < |graphs|
    ensures |EmitChunks(graphs, chunks, es).value| == |chunks| + |graphs|
    ensures EmitChunks(graphs, chunks, es).value[..|chunks|] == chunks
    ensures EmitChunk(graphs[i], at).Some? && EmitChunk(graphs[i], at).value.code == EmitChunks(graphs, chunks, es).value[|chunks| + i]
    decreases |graphs|
  {
    hide EmitChunk;
    var next := EmitChunk(graphs[0], es).value;
    var r := EmitChunks(graphs, chunks, es).value;
    if |graphs| > 1 {
      var k := if i > 0 then i - 1 else 0;
      at := ChunksEmitted(graphs[1..], chunks + [next.code], next, k);
    }
    assert r[..|chunks|] == r[..|chunks| + 1][..|chunks|] == chunks;
    if i == 0 {
      at := es;
      assert r[|chunks|] == r[..|chunks| + 1][|chunks|];
    }
  }

  /** Lowering to blocks, the depth-first walk and the patching of jumps come to the same code
      as compiling each statement from the code of its parts, if and only if no step is lost in
      a block that the walk does not visit. */
  lemma CompilesClean(p: Program, natives: map<string, int>, pre: Prepass)
    requires CollectFunctions(p, Prepass(map[], 0, -1)) == Some(pre)
    requires CleanFunctions(natives, Functions(p), Pool(pre.globals, []))
    ensures var fs, pool := Functions(p), Pool(pre.globals, []);
            Compile(natives, p) == Some(M.Code(Bodies(natives, fs, pool), PoolAfter(natives, fs, pool).consts, pre.mainId))
            <==> Whole(fs)
  {
    hide CollectFunctions, CleanFunctions, Functions, LowerDecls, EmitChunks, Shaped, NothingLost, EmitChunk;
    var fs, pool := Functions(p), Pool(pre.globals, []);
    ShapeRest(natives, p, Unit([], pool, 0));
    var u := LowerDecls(natives, p, Unit([], pool, 0)).value;
    var es := EmitterState([], [], []);
    assert u.graphs[0..] == u.graphs;
    if Whole(fs) {
      EmitAllChunks(natives, fs, Pools(natives, fs, pool), u.graphs, [], []);
      var chunks := EmitChunks(u.graphs, [], es).value;
      forall i | 0 <= i < |fs| ensures chunks[i] == Bodies(natives, fs, pool)[i] {
        BodiesAt(natives, fs, pool, i);
        assert chunks[0 + i] == CompiledBody(natives, fs[i], Pools(natives, fs, pool)[i]);
      }
      assert chunks == Bodies(natives, fs, pool);
    } else if EmitChunks(u.graphs, [], es) == Some(Bodies(natives, fs, pool)) {
      forall i | 0 <= i < |fs| ensures NothingLost(fs[i].body, true) {
        BodiesAt(natives, fs, pool, i);
        var at := ChunksEmitted(u.graphs, [], es, i);
        ChunkCount(natives, fs[i], Pools(natives, fs, pool)[i], u.graphs[i], at);
      }
    }
  }

  lemma {:induction false} FunctionsClean(sg: Signature, natives: map<string, int>, k: nat, pool: Pool)
    requires NamesOk(sg.fs) && natives.Keys == sg.natives && (forall i | 0 <= i < |sg.fs| :: OkFunction(sg, sg.fs[i]))
    requires k <= |sg.fs| && GoodPool(sg.fs, pool)
    ensures CleanFunctions(natives, sg.fs[k..], pool)
    decreases |sg.fs| - k
  {
    hide NamesOk, GoodPool, OkStmts, OkFunction, Prepared, CompileStmts, CleanStmts, Distinct;
    if k < |sg.fs| {
      var f := sg.fs[k];
      assert sg.fs[k..][0] == f && sg.fs[k..][1..] == sg.fs[k + 1..];
      BodyPrepared(sg, natives, f, pool);
      var nm := BodyNames(natives, f);
      StmtsClean(sg, f.body, nm, pool, |f.params|, 1, false);
      CompileStmtsFacts(sg, f.body, nm, pool, |f.params|, 1, false, 0, 0);
      FunctionsClean(sg, natives, k + 1, CompiledIn(natives, f, pool).pool);
    }
  }

  /** A program of the fragment lowers without error, and none of its steps is lost. */
  lemma FragmentClean(p: Program, natives: map<string, int>) returns (pre: Prepass)
    requires WellFormed(p, natives.Keys)
    ensures CollectFunctions(p, Prepass(map[], 0, -1)) == Some(pre)
    ensures CleanFunctions(natives, Functions(p), Pool(pre.globals, [])) && Whole(Functions(p))
  {
    hide *;
    WellFormedParts(p, natives.Keys);
    var sg := Signature(Functions(p), natives.Keys);
    pre := Prepassed(p);
    PrepassPool(sg.fs, pre);
    FunctionsClean(sg, natives, 0, Pool(pre.globals, []));
    assert sg.fs[0..] == Functions(p);
    forall i | 0 <= i < |sg.fs| ensures NothingLost(sg.fs[i].body, true) {
      WholeBody(sg, sg.fs[i]);
    }
    WholeIs(sg.fs);
  }

  lemma WholeIs(fs: seq<Fun>)
    ensures Whole(fs) <==> forall i | 0 <= i < |fs| :: NothingLost(fs[i].body, true)
  {
  }
}
