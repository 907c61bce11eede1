/** Whole programs: the two passes over the declarations
    (src/ir/convert_ast.cpp:33-59, 717-766) and the emission of one chunk per function
    (src/bcgen/emitter.cpp:26-44, 408-461). `None` is a rejected program. */
module Compiler {
  import opened Values
  import opened Syntax
  import opened ExprLowering
  import opened StmtLowering
  import opened Cfg
  import opened DfsOrder
  import opened Emission
  import Ir
  import M = Machine

  type Graph = seq<BasicBlock>

  datatype Prepass = Prepass(globals: map<string, Ir.Addr>, nextFun: int, mainId: int)

  /** First pass: functions get their ids in source order; the first `main` is the entry. */
  function CollectFunctions(p: Program, st: Prepass): Option<Prepass> {
    if p == [] then Some(st)
    else if !p[0].Function? then CollectFunctions(p[1..], st)
    else
      var name, id := p[0].fun.name, st.nextFun;
      if name in st.globals then None
      else
        var mainId := if name == "main" && st.mainId == -1 then id else st.mainId;
        CollectFunctions(p[1..], Prepass(st.globals[name := Ir.Imm(id)], id + 1, mainId))
  }

  /** Parameters take the first temporaries; a repeated name is an error. */
  function RecordParams(params: seq<string>): Option<map<string, Ir.Addr>> {
    if params == [] then Some(map[])
    else
      match RecordParams(params[..|params| - 1])
      case None => None
      case Some(locals) =>
        var name := params[|params| - 1];
        if name in locals then None else Some(locals[name := Ir.TempAt(|params| - 1)])
  }

  function ToGraph(blocks: seq<Block>): (g: Graph)
    ensures |g| == |blocks| && forall i | 0 <= i < |g| :: g[i] == Unlinked(blocks[i])
  {
    seq(|blocks|, i requires 0 <= i < |blocks| => Unlinked(blocks[i]))
  }

  /** Everything lowered so far. */
  datatype Unit = Unit(graphs: seq<Graph>, pool: Pool, errors: nat)

  function LowerFunction(natives: map<string, int>, f: Fun, u: Unit): Option<Unit> {
    match RecordParams(f.params)
    case None => None
    case Some(locals) =>
      var e := LowerStmts(f.body, Names(natives, locals), u.pool, |f.params|, 0);
      if !e.ok then None else
      match ApplyLinks(ToGraph(e.blocks), e.links)
      case None => None
      case Some(g) => Some(Unit(u.graphs + [g], e.pool, u.errors + e.errors))
  }

  /** Second pass. */
  function LowerDecls(natives: map<string, int>, p: Program, u: Unit): Option<Unit> {
    if p == [] then Some(u)
    else if !p[0].Function? then LowerDecls(natives, p[1..], u)
    else
      match LowerFunction(natives, p[0].fun, u)
      case None => None
      case Some(u') => LowerDecls(natives, p[1..], u')
  }

  datatype FullIr = FullIr(graphs: seq<Graph>, consts: seq<Value>, mainId: int)

  function LowerProgram(natives: map<string, int>, p: Program): Option<FullIr> {
    match CollectFunctions(p, Prepass(map[], 0, -1))
    case None => None
    case Some(pre) =>
      match LowerDecls(natives, p, Unit([], Pool(pre.globals, []), 0))
      case None => None
      case Some(u) => if u.errors > 0 then None else Some(FullIr(u.graphs, u.pool.consts, pre.mainId))
  }

  /** Steps of the given blocks, one block after the other. */
  function StepsOf(g: Graph, ids: seq<int>): seq<Ir.Step>
    requires forall i | 0 <= i < |ids| :: 0 <= ids[i] < |g|
  {
    if ids == [] then [] else g[ids[0]].steps + StepsOf(g, ids[1..])
  }

  lemma {:induction false} DfsInRange(g: Graph, frontier: seq<int>, visited: set<int>)
    ensures Dfs(g, frontier, visited).Some? ==>
              forall i | 0 <= i < |Dfs(g, frontier, visited).value| :: 0 <= Dfs(g, frontier, visited).value[i] < |g|
    decreases |Unvisited(|g|, visited)|, |frontier|
  {
    if frontier != [] {
      var id, rest := frontier[|frontier| - 1], frontier[..|frontier| - 1];
      if id in visited {
        DfsInRange(g, rest, visited);
      } else if 0 <= id < |g| {
        VisitShrinks(|g|, visited, id);
        DfsInRange(g, rest + Pushed(g[id]), visited + {id});
      }
    }
  }

  /** One chunk: the blocks in walk order. The two stacks of pending constructs carry over. */
  function EmitChunk(g: Graph, es: EmitterState): Option<EmitterState> {
    match Dfs(g, [0], {})
    case None => None
    case Some(ids) =>
      DfsInRange(g, [0], {});
      EmitSteps(EmitterState([], es.ifs, es.loops), StepsOf(g, ids))
  }

  function EmitChunks(graphs: seq<Graph>, chunks: seq<M.Chunk>, es: EmitterState): Option<seq<M.Chunk>> {
    if graphs == [] then Some(chunks)
    else
      match EmitChunk(graphs[0], es)
      case None => None
      case Some(es') => EmitChunks(graphs[1..], chunks + [es'.code], es')
  }

  function EmitProgram(ir: FullIr): Option<M.Code> {
    match EmitChunks(ir.graphs, [], EmitterState([], [], []))
    case None => None
    case Some(chunks) => Some(M.Code(chunks, ir.consts, ir.mainId))
  }

  function Compile(natives: map<string, int>, p: Program): Option<M.Code> {
    match LowerProgram(natives, p)
    case None => None
    case Some(ir) => EmitProgram(ir)
  }
}
