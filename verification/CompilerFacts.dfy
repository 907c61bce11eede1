/** Compiling a well-formed program succeeds, and every chunk is the compositional code of
    its function. */
module CompilerFacts {
  import opened Values
  import opened Syntax
  import opened Semantics
  import opened ExprLowering
  import opened Fragment
  import opened LoweringFacts
  import opened Compositional
  import opened CompileFacts
  import opened StmtLowering
  import opened BlockGraph
  import opened CleanLowering
  import opened Emission
  import opened EmissionFacts
  import opened Backpatching
  import opened Cfg
  import opened DfsOrder
  import opened LostBlocks
  import opened Compiler
  import opened SimulationBase
  import Ir
  import M = Machine
  import S = Simulation

  // ---------------------------------------------------------------- fragment bodies lower cleanly

  lemma ExprClean(sg: Signature, e: Expr, nm: Names, pool: Pool, n: nat, lim: nat)
    requires Prepared(sg, nm, pool, n) && OkExpr(sg, e, nm.locals.Keys, n, lim)
    ensures CleanExpr(LowerExpr(nm, e, pool, n))
  {
    PrepareNext(sg, e, nm, pool, n, lim);
    hide LowerExpr, Prepared, OkExpr, GoodPool, Extends, NoMarkers;
  }

  lemma {:induction false} StmtClean(
    sg: Signature, s: Stmt, nm: Names, pool: Pool, n: nat, lim: nat, inLoop: bool)
    requires Prepared(sg, nm, pool, n) && OkStmt(sg, s, nm.locals.Keys, n, lim, inLoop)
    ensures CleanStmt(s, nm, pool, n, inLoop)
    decreases s, 1
  {
    match s
    case If(_, _, _) => IfClean(sg, s, nm, pool, n, lim, inLoop);
    case While(_, _) => WhileClean(sg, s, nm, pool, n, lim, inLoop);
    case _ => SimpleClean(sg, s, nm, pool, n, lim, inLoop);
  }

  lemma SimpleClean(
    sg: Signature, s: Stmt, nm: Names, pool: Pool, n: nat, lim: nat, inLoop: bool)
    requires !s.If? && !s.While?
    requires Prepared(sg, nm, pool, n) && OkStmt(sg, s, nm.locals.Keys, n, lim, inLoop)
    ensures CleanStmt(s, nm, pool, n, inLoop)
  {
    match s
    case ExprStmt(e) =>
      if e.Assign? {
        AssignClean(sg, e, nm, pool, n, lim);
      } else {
        ExprClean(sg, e, nm, pool, n, lim);
      }
    case LocalDef(name, init) =>
      ExprClean(sg, init, nm, pool, n, lim);
      hide GoodPool, GoodNames, NamesOk, LowerExpr, CleanExpr, OkExpr;
    case Return(result) => ExprClean(sg, result, nm, pool, n, lim);
    case Break =>
  }

  lemma AssignClean(sg: Signature, e: Expr, nm: Names, pool: Pool, n: nat, lim: nat)
    requires Prepared(sg, nm, pool, n)
    requires e.Assign? && e.target.Literal? && e.target.kind == TkIdent && e.target.lexeme in nm.locals
    requires OkExpr(sg, e.value, nm.locals.Keys, n, lim)
    ensures CleanExpr(LowerExpr(nm, e, pool, n))
  {
    LowerAssignment(sg, nm, e, pool, n, lim);
    ExprClean(sg, e.value, nm, pool, n, lim);
    hide LowerExpr, OkExpr, Prepared;
    var r := LowerExpr(nm, e.value, pool, n);
    NoMarkersAppend(r.steps, [Ir.TacMove(nm.locals[e.target.lexeme], r.addr.value)]);
  }

  lemma {:induction false} IfClean(
    sg: Signature, s: Stmt, nm: Names, pool: Pool, n: nat, lim: nat, inLoop: bool)
    requires s.If? && Prepared(sg, nm, pool, n) && OkStmt(sg, s, nm.locals.Keys, n, lim, inLoop)
    ensures CleanStmt(s, nm, pool, n, inLoop)
    decreases s, 0
  {
    hide Prepared, CompilesWell, LowersWell, Extends, LowerExpr, OkExpr, CleanExpr, NamesOk, TranslateAll;
    ExprClean(sg, s.cond, nm, pool, n, lim);
    PrepareNext(sg, s.cond, nm, pool, n, lim);
    CompileNothing(sg, nm, pool, n, Compiled([], nm, pool, n));
    var r := LowerExpr(nm, s.cond, pool, n);
    StmtsClean(sg, s.thn, nm, r.pool, r.next, lim, inLoop);
    if s.els.Else? {
      var base := -|TranslateAll(r.steps)| - 1;
      CompileThenFacts(sg, s, nm, pool, n, lim, inLoop, base, 0);
      var t := CompileStmts(s.thn, nm, r.pool, r.next, 0, 0);
      var n1 := n + Temps(s.cond) + BlockTemps(s.thn);
      PrepareAfter(sg, t, nm, r.pool, r.next, n1, DefinedIn(s.thn));
      StmtsClean(sg, s.els.body, t.nm, t.pool, n1, lim, inLoop);
    }
  }

  lemma {:induction false} WhileClean(
    sg: Signature, s: Stmt, nm: Names, pool: Pool, n: nat, lim: nat, inLoop: bool)
    requires s.While? && Prepared(sg, nm, pool, n) && OkStmt(sg, s, nm.locals.Keys, n, lim, inLoop)
    ensures CleanStmt(s, nm, pool, n, inLoop)
    decreases s, 0
  {
    hide Prepared, LowersWell, Extends, LowerExpr, OkExpr, CleanExpr;
    var high := if lim >= n + StmtTemps(s) then lim else n + StmtTemps(s);
    ExprClean(sg, s.check, nm, pool, n, high);
    PrepareNext(sg, s.check, nm, pool, n, high);
    var r := LowerExpr(nm, s.check, pool, n);
    StmtsClean(sg, s.body, nm, r.pool, r.next, high, true);
  }

  lemma {:induction false} StmtsClean(
    sg: Signature, ss: seq<Stmt>, nm: Names, pool: Pool, n: nat, lim: nat, inLoop: bool)
    requires Prepared(sg, nm, pool, n) && OkStmts(sg, ss, nm.locals.Keys, n, lim, inLoop)
    ensures CleanStmts(ss, nm, pool, n, inLoop)
    decreases ss, 2
  {
    hide Prepared, NamesOk, CompilesWell, CompileStmt, CleanStmt, OkStmt, StmtTemps, DefinedBy;
    if ss != [] {
      StmtClean(sg, ss[0], nm, pool, n, lim, inLoop);
      CompileNothing(sg, nm, pool, n, Compiled([], nm, pool, n));
      CompileStmtFacts(sg, ss[0], nm, pool, n, lim, inLoop, 0, 0);
      var h := CompileStmt(ss[0], nm, pool, n, 0, 0);
      var n1 := n + StmtTemps(ss[0]);
      PrepareAfter(sg, h, nm, pool, n, n1, DefinedBy(ss[0]));
      StmtsClean(sg, ss[1..], h.nm, h.pool, n1, lim, inLoop);
    }
  }

  // ---------------------------------------------------------------- first pass

  ghost predicate DistinctFunctions(fs: seq<Fun>) {
    forall i, j | 0 <= i < j < |fs| :: fs[i].name != fs[j].name
  }

  /** After the functions `done`: each name stands for its position, `main` for the entry. */
  ghost predicate Collected(done: seq<Fun>, st: Prepass) {
    && st.nextFun == |done|
    && (forall i | 0 <= i < |done| :: done[i].name in st.globals && st.globals[done[i].name] == Ir.Imm(i))
    && (forall x | x in st.globals :: FindFunction(done, x) < |done|)
    && st.mainId == (if FindFunction(done, "main") < |done| then FindFunction(done, "main") else -1)
  }

  lemma {:induction false} FindAppend(fs: seq<Fun>, f: Fun, name: string)
    ensures FindFunction(fs + [f], name) ==
            if FindFunction(fs, name) < |fs| then FindFunction(fs, name) else if f.name == name then |fs| else |fs| + 1
  {
    if fs == [] {
      assert FindFunction([f][1..], name) == 0;
    } else {
      FindAppend(fs[1..], f, name);
      assert (fs + [f])[1..] == fs[1..] + [f];
    }
  }

  lemma CollectOne(done: seq<Fun>, f: Fun, st: Prepass, st': Prepass)
    requires Collected(done, st) && f.name !in st.globals
    requires st' == AfterFunction(f, st)
    ensures Collected(done + [f], st')
  {
    forall x ensures FindFunction(done + [f], x) ==
            if FindFunction(done, x) < |done| then FindFunction(done, x) else if f.name == x then |done| else |done| + 1
    {
      FindAppend(done, f, x);
    }
    if f.name == "main" {
      assert FindFunction(done, "main") == |done|;
    }
  }

  lemma NameClash(done: seq<Fun>, f: Fun, rest: seq<Fun>, st: Prepass)
    requires Collected(done, st) && f.name in st.globals
    ensures !DistinctFunctions(done + [f] + rest)
  {
    var fs := done + [f] + rest;
    var k := FindFunction(done, f.name);
    assert fs[k].name == fs[|done|].name;
  }

  lemma NameNew(done: seq<Fun>, f: Fun, st: Prepass)
    requires Collected(done, st) && f.name !in st.globals && DistinctFunctions(done)
    ensures DistinctFunctions(done + [f])
  {
  }

  function AfterFunction(f: Fun, st: Prepass): Prepass {
    Prepass(st.globals[f.name := Ir.Imm(st.nextFun)], st.nextFun + 1,
            if f.name == "main" && st.mainId == -1 then st.nextFun else st.mainId)
  }

  /** The first pass accepts exactly the programs whose function names are distinct. */
  lemma {:induction false} CollectExactly(p: Program, done: seq<Fun>, st: Prepass)
    requires Collected(done, st) && DistinctFunctions(done)
    ensures var r := CollectFunctions(p, st);
            && (r.Some? <==> DistinctFunctions(done + Functions(p)))
            && (r.Some? ==> Collected(done + Functions(p), r.value))
    decreases p
  {
    hide Collected, DistinctFunctions;
    if p == [] {
      assert done + [] == done;
    } else if p[0].Function? {
      var f := p[0].fun;
      assert done + [f] + Functions(p[1..]) == done + ([f] + Functions(p[1..]));
      if f.name in st.globals {
        NameClash(done, f, Functions(p[1..]), st);
      } else {
        NameNew(done, f, st);
        CollectOne(done, f, st, AfterFunction(f, st));
        CollectExactly(p[1..], done + [f], AfterFunction(f, st));
      }
    } else {
      assert [] + Functions(p[1..]) == Functions(p[1..]);
      CollectExactly(p[1..], done, st);
    }
  }

  /** The constant pool that the second pass starts with. */
  lemma PrepassPool(fs: seq<Fun>, pre: Prepass)
    requires Collected(fs, pre)
    ensures GoodPool(fs, Pool(pre.globals, []))
  {
    var pool := Pool(pre.globals, []);
    forall key | key in pool.globals ensures GoodEntry(fs, pool, key) {
      var k := FindFunction(fs, key);
      assert fs[k].name == key;
    }
  }

  // ---------------------------------------------------------------- second pass

  lemma {:induction false} RecordExactly(params: seq<string>)
    ensures RecordParams(params) == if Distinct(params) then Some(ParamLocals(params)) else None
    ensures forall x :: x in ParamLocals(params) <==> x in params
    decreases |params|
  {
    if params != [] {
      var init, name := params[..|params| - 1], params[|params| - 1];
      assert params == init + [name];
      RecordExactly(init);
      assert Distinct(params) <==> Distinct(init) && name !in init;
    }
  }

  function BodyNames(natives: map<string, int>, f: Fun): Names {
    Names(natives, ParamLocals(f.params))
  }

  /** The body of `f`, compiled from the given constants. */
  function CompiledIn(natives: map<string, int>, f: Fun, pool: Pool): Compiled {
    CompileStmts(f.body, BodyNames(natives, f), pool, |f.params|, 0, 0)
  }

  /** The control-flow graph built for `f` when the constant pool was `pool`. */
  ghost predicate Shaped(natives: map<string, int>, f: Fun, pool: Pool, g: Graph) {
    && CleanStmts(f.body, BodyNames(natives, f), pool, |f.params|, false)
    && BodyGraph(g, f.body)
    && var e := LowerStmts(f.body, BodyNames(natives, f), pool, |f.params|, 0);
    && |e.blocks| == |g| && forall k | 0 <= k < |g| :: g[k].steps == e.blocks[k]
  }

  ghost predicate Lowers(sg: Signature, natives: map<string, int>, f: Fun, pool: Pool, g: Graph, consts: seq<Value>) {
    && GoodPool(sg.fs, pool) && CompiledIn(natives, f, pool).pool.consts <= consts && Shaped(natives, f, pool, g)
  }

  lemma {:induction false} LinksOfValid(s: Stmt, c: int)
    requires c >= 0
    ensures forall i | 0 <= i < |LinksOf(s, c)| ::
              c <= LinksOf(s, c)[i].from < c + NewBlocks(s) && c <= LinksOf(s, c)[i].to <= c + NewBlocks(s)
    decreases s
  {
    match s
    case If(_, thn, els) =>
      LinksInValid(thn, c + 1);
      if els.Else? {
        LinksInValid(els.body, ElseStart(s, c));
      }
    case While(_, body) => LinksInValid(body, c + 1);
    case _ =>
  }

  lemma {:induction false} LinksInValid(ss: seq<Stmt>, c: int)
    requires c >= 0
    ensures forall i | 0 <= i < |LinksIn(ss, c)| ::
              c <= LinksIn(ss, c)[i].from <= c + BlocksIn(ss) && c <= LinksIn(ss, c)[i].to <= c + BlocksIn(ss)
    decreases ss
  {
    if ss != [] {
      LinksOfValid(ss[0], c);
      LinksInValid(ss[1..], c + NewBlocks(ss[0]));
    }
  }

  /** Applying the queued links of a body gives its control-flow graph. */
  lemma LinksApplied(ss: seq<Stmt>, blocks: seq<Block>)
    requires |blocks| == BlocksIn(ss) + 1
    ensures var r := ApplyLinks(ToGraph(blocks), LinksIn(ss, 0));
            r.Some? && |r.value| == |blocks| && BodyGraph(r.value, ss) && forall k | 0 <= k < |r.value| :: r.value[k].steps == blocks[k]
  {
    LinksInValid(ss, 0);
    hide LinksIn, BlocksIn;
    var g := ToGraph(blocks);
    ApplyLinksFacts(g, LinksIn(ss, 0));
    var r := ApplyLinks(g, LinksIn(ss, 0)).value;
    forall k | 0 <= k < |r| ensures Successors(r[k]) == FirstTwo(Targets(LinksIn(ss, 0), k)) {
      assert Successors(g[k]) == [];
      assert [] + Targets(LinksIn(ss, 0), k) == Targets(LinksIn(ss, 0), k);
    }
  }

  /** The graphs built so far, with the constant pool each function found. */
  ghost predicate Built(sg: Signature, natives: map<string, int>, u: Unit, pools: seq<Pool>) {
    && GoodPool(sg.fs, u.pool) && u.errors == 0
    && |u.graphs| == |pools| <= |sg.fs|
    && forall i | 0 <= i < |pools| :: Lowers(sg, natives, sg.fs[i], pools[i], u.graphs[i], u.pool.consts)
  }

  lemma LowersLater(sg: Signature, natives: map<string, int>, f: Fun, pool: Pool, g: Graph, consts: seq<Value>, later: seq<Value>)
    requires Lowers(sg, natives, f, pool, g, consts) && consts <= later
    ensures Lowers(sg, natives, f, pool, g, later)
  {
    hide GoodPool, CompileStmts, Shaped;
  }

  lemma BodyPrepared(sg: Signature, natives: map<string, int>, f: Fun, pool: Pool)
    requires NamesOk(sg.fs) && natives.Keys == sg.natives && OkFunction(sg, f) && GoodPool(sg.fs, pool)
    ensures Prepared(sg, BodyNames(natives, f), pool, |f.params|) && BodyNames(natives, f).locals.Keys == ParamNames(f.params)
    ensures OkStmts(sg, f.body, ParamNames(f.params), |f.params|, 1, false) && Distinct(f.params)
  {
    hide NamesOk, GoodPool, OkStmts, FreshName, Distinct, NothingLost, GoodNames;
    S.ParamsGood(sg, BodyNames(natives, f), f.params);
    S.ParamFacts(f.params);
  }

  /** A function whose lowering meets no error anywhere gets the graph of its body. */
  lemma ShapeOne(natives: map<string, int>, f: Fun, u: Unit)
    requires Distinct(f.params) && CleanStmts(f.body, BodyNames(natives, f), u.pool, |f.params|, false)
    ensures var r := LowerFunction(natives, f, u);
            && r.Some? && r.value.errors == u.errors && r.value.pool == CompiledIn(natives, f, u.pool).pool
            && |r.value.graphs| == |u.graphs| + 1 && r.value.graphs[..|u.graphs|] == u.graphs
            && Shaped(natives, f, u.pool, r.value.graphs[|u.graphs|])
  {
    hide BodyGraph, CompileStmts, CleanStmts, LowerStmts, Distinct, ParamLocals, RecordParams, LinksIn, BlocksIn, ApplyLinks;
    RecordExactly(f.params);
    var nm := BodyNames(natives, f);
    LowerStmtsClean(f.body, nm, u.pool, |f.params|, 0, false);
    LinksApplied(f.body, LowerStmts(f.body, nm, u.pool, |f.params|, 0).blocks);
  }

  /** A function of the fragment lowers without error. */
  lemma LowerOne(sg: Signature, natives: map<string, int>, f: Fun, u: Unit)
    requires NamesOk(sg.fs) && natives.Keys == sg.natives && OkFunction(sg, f) && GoodPool(sg.fs, u.pool) && u.errors == 0
    ensures var r := LowerFunction(natives, f, u);
            && r.Some? && r.value.errors == 0 && GoodPool(sg.fs, r.value.pool) && u.pool.consts <= r.value.pool.consts
            && |r.value.graphs| == |u.graphs| + 1 && r.value.graphs[..|u.graphs|] == u.graphs
            && Lowers(sg, natives, f, u.pool, r.value.graphs[|u.graphs|], r.value.pool.consts)
  {
    hide NamesOk, GoodPool, OkStmts, OkFunction, Prepared, Shaped, CompileStmts, CleanStmts, LowerFunction, Distinct, ParamLocals;
    BodyPrepared(sg, natives, f, u.pool);
    var nm := BodyNames(natives, f);
    StmtsClean(sg, f.body, nm, u.pool, |f.params|, 1, false);
    ShapeOne(natives, f, u);
    CompileStmtsFacts(sg, f.body, nm, u.pool, |f.params|, 1, false, 0, 0);
  }

  /** The second pass over the rest of the program. */
  lemma {:induction false} LowerRest(sg: Signature, natives: map<string, int>, p: Program, u: Unit, pools: seq<Pool>) returns (all: seq<Pool>)
    requires NamesOk(sg.fs) && natives.Keys == sg.natives && (forall i | 0 <= i < |sg.fs| :: OkFunction(sg, sg.fs[i]))
    requires Built(sg, natives, u, pools) && sg.fs[|pools|..] == Functions(p)
    ensures var r := LowerDecls(natives, p, u);
            r.Some? && |all| == |sg.fs| && Built(sg, natives, r.value, all)
    decreases p
  {
    hide NamesOk, GoodPool, OkFunction, Lowers, LowerFunction;
    if p == [] {
      all := pools;
    } else if p[0].Function? {
      var f := p[0].fun;
      assert sg.fs[|pools|] == sg.fs[|pools|..][0] == f;
      assert sg.fs[|pools| + 1..] == sg.fs[|pools|..][1..] == Functions(p[1..]);
      LowerOne(sg, natives, f, u);
      var u' := LowerFunction(natives, f, u).value;
      BuiltOne(sg, natives, u, u', pools);
      all := LowerRest(sg, natives, p[1..], u', pools + [u.pool]);
    } else {
      assert [] + Functions(p[1..]) == Functions(p[1..]);
      all := LowerRest(sg, natives, p[1..], u, pools);
    }
  }

  lemma BuiltOne(sg: Signature, natives: map<string, int>, u: Unit, u': Unit, pools: seq<Pool>)
    requires Built(sg, natives, u, pools) && |pools| < |sg.fs|
    requires u'.errors == 0 && GoodPool(sg.fs, u'.pool) && u.pool.consts <= u'.pool.consts
    requires |u'.graphs| == |u.graphs| + 1 && u'.graphs[..|u.graphs|] == u.graphs
    requires Lowers(sg, natives, sg.fs[|pools|], u.pool, u'.graphs[|u.graphs|], u'.pool.consts)
    ensures Built(sg, natives, u', pools + [u.pool])
  {
    hide GoodPool, Lowers;
    var all := pools + [u.pool];
    forall i | 0 <= i < |all| ensures Lowers(sg, natives, sg.fs[i], all[i], u'.graphs[i], u'.pool.consts) {
      if i < |pools| {
        assert u'.graphs[i] == u'.graphs[..|u.graphs|][i] == u.graphs[i];
        LowersLater(sg, natives, sg.fs[i], pools[i], u.graphs[i], u.pool.consts, u'.pool.consts);
      }
    }
  }

  // ---------------------------------------------------------------- emission

  /** The steps of the visited blocks, from block `lo` on. */
  lemma {:induction false} StepsKept(g: Graph, blocks: seq<Block>, rs: seq<bool>, lo: nat)
    requires |g| == |blocks| == |rs| && lo <= |g| && forall k | 0 <= k < |g| :: g[k].steps == blocks[k]
    ensures forall i | 0 <= i < |Positions(rs[lo..], lo)| :: 0 <= Positions(rs[lo..], lo)[i] < |g|
    ensures StepsOf(g, Positions(rs[lo..], lo)) == Kept(blocks[lo..], rs[lo..])
    decreases |g| - lo
  {
    if lo < |g| {
      StepsKept(g, blocks, rs, lo + 1);
      assert rs[lo..][1..] == rs[lo + 1..] && blocks[lo..][1..] == blocks[lo + 1..];
      var rest := Positions(rs[lo + 1..], lo + 1);
      if rs[lo] {
        assert Positions(rs[lo..], lo) == [lo] + rest && ([lo] + rest)[1..] == rest;
      } else {
        assert Positions(rs[lo..], lo) == [] + rest == rest;
        assert [] + Kept(blocks[lo + 1..], rs[lo + 1..]) == Kept(blocks[lo + 1..], rs[lo + 1..]);
      }
    }
  }

  function CompiledBody(natives: map<string, int>, f: Fun, pool: Pool): M.Chunk {
    CompiledIn(natives, f, pool).code
  }

  /** What the emitter is given for a function: the steps of the blocks it visits. */
  lemma EmitsKept(natives: map<string, int>, f: Fun, pool: Pool, g: Graph, es: EmitterState)
    requires Shaped(natives, f, pool, g)
    ensures var bs := LowerStmts(f.body, BodyNames(natives, f), pool, |f.params|, 0).blocks;
            && |bs| == |Reached(f.body)|
            && EmitChunk(g, es) == EmitSteps(EmitterState([], es.ifs, es.loops), Kept(bs, Reached(f.body)))
  {
    hide CleanStmts, LowerStmts, EmitSteps, Dfs, Order, BodyGraph, Reached, Kept, Positions, ElsesFlat;
    EmissionOrder(g, f.body);
    OrderIsReached(f.body, 0);
    var nm := BodyNames(natives, f);
    KeptExactly(f.body, nm, pool, |f.params|, 0);
    var bs, rs := LowerStmts(f.body, nm, pool, |f.params|, 0).blocks, Reached(f.body);
    StepsKept(g, bs, rs, 0);
    assert rs[0..] == rs && bs[0..] == bs;
  }

  /** Emitting all steps of a function in block order gives its compositional code. */
  lemma EmitsAll(natives: map<string, int>, f: Fun, pool: Pool)
    requires CleanStmts(f.body, BodyNames(natives, f), pool, |f.params|, false)
    ensures var bs := LowerStmts(f.body, BodyNames(natives, f), pool, |f.params|, 0).blocks;
            var c := CompiledBody(natives, f, pool);
            && EmitSteps(EmitterState([], [], []), Flat(bs)) == Some(EmitterState(c, [], []))
            && |TranslateAll(Flat(bs))| == |c|
  {
    hide CompileStmts, CleanStmts, LowerStmts, Flat, EmitSteps, BreaksIn, TranslateAll;
    var nm := BodyNames(natives, f);
    var es := EmitterState([], [], []);
    EmitStmtsClean(f.body, nm, pool, |f.params|, 0, false, es);
    var c := CompiledBody(natives, f, pool);
    assert [] + c == c;
    EmittedCount(es, Flat(LowerStmts(f.body, nm, pool, |f.params|, 0).blocks));
  }

  /** Whatever earlier functions left on the two stacks: the chunk of a function has as many
      instructions as its compositional code if and only if no step is lost. */
  lemma ChunkCount(natives: map<string, int>, f: Fun, pool: Pool, g: Graph, es: EmitterState)
    requires Shaped(natives, f, pool, g) && EmitChunk(g, es).Some?
    ensures |EmitChunk(g, es).value.code| == |CompiledBody(natives, f, pool)| <==> NothingLost(f.body, true)
  {
    hide CompiledBody, CleanStmts, LowerStmts, EmitSteps, EmitChunk, BodyGraph, Reached, Kept, Flat, TranslateAll, NothingLost;
    EmitsKept(natives, f, pool, g, es);
    EmitsAll(natives, f, pool);
    var nm := BodyNames(natives, f);
    KeptExactly(f.body, nm, pool, |f.params|, 0);
    EmittedCount(EmitterState([], es.ifs, es.loops), Kept(LowerStmts(f.body, nm, pool, |f.params|, 0).blocks, Reached(f.body)));
  }

  /** The chunk of a function is its compositional code, with both stacks empty again, if and
      only if no step is lost. */
  lemma EmitOneChunk(natives: map<string, int>, f: Fun, pool: Pool, g: Graph, before: M.Chunk)
    requires Shaped(natives, f, pool, g)
    ensures EmitChunk(g, EmitterState(before, [], [])) == Some(EmitterState(CompiledBody(natives, f, pool), [], []))
            <==> NothingLost(f.body, true)
  {
    hide CompiledBody, CleanStmts, LowerStmts, EmitSteps, EmitChunk, BodyGraph, Reached, Kept, Flat, TranslateAll, NothingLost;
    var es := EmitterState(before, [], []);
    if NothingLost(f.body, true) {
      EmitsKept(natives, f, pool, g, es);
      EmitsAll(natives, f, pool);
      KeptExactly(f.body, BodyNames(natives, f), pool, |f.params|, 0);
    } else if EmitChunk(g, es).Some? {
      ChunkCount(natives, f, pool, g, es);
    }
  }

  ghost predicate AllShaped(natives: map<string, int>, fs: seq<Fun>, pools: seq<Pool>, graphs: seq<Graph>) {
    && |fs| == |pools| == |graphs|
    && forall i | 0 <= i < |fs| :: Shaped(natives, fs[i], pools[i], graphs[i])
  }

  lemma {:induction false} EmitAllChunks(
    natives: map<string, int>, fs: seq<Fun>, pools: seq<Pool>, graphs: seq<Graph>, chunks: seq<M.Chunk>, before: M.Chunk)
    requires AllShaped(natives, fs, pools, graphs) && forall i | 0 <= i < |fs| :: NothingLost(fs[i].body, true)
    ensures var r := EmitChunks(graphs, chunks, EmitterState(before, [], []));
            && r.Some? && |r.value| == |chunks| + |fs| && r.value[..|chunks|] == chunks
            && forall i | 0 <= i < |fs| :: r.value[|chunks| + i] == CompiledBody(natives, fs[i], pools[i])
    decreases |graphs|
  {
    hide Shaped, NothingLost, EmitChunk, CompiledBody;
    if graphs == [] {
      assert chunks[..|chunks|] == chunks;
    } else {
      EmitOneChunk(natives, fs[0], pools[0], graphs[0], before);
      var c := CompiledBody(natives, fs[0], pools[0]);
      EmitAllChunks(natives, fs[1..], pools[1..], graphs[1..], chunks + [c], c);
      var r := EmitChunks(graphs, chunks, EmitterState(before, [], [])).value;
      assert r[..|chunks|] == r[..|chunks| + 1][..|chunks|] == chunks;
      forall i | 0 <= i < |fs| ensures r[|chunks| + i] == CompiledBody(natives, fs[i], pools[i]) {
        if i == 0 {
          assert r[|chunks|] == r[..|chunks| + 1][|chunks|];
        } else {
          assert fs[1..][i - 1] == fs[i] && pools[1..][i - 1] == pools[i];
        }
      }
    }
  }
}
