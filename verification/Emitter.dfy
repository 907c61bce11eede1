/** The emitter as it runs (src/bcgen/emitter.cpp): it appends to the newest chunk, keeps two
    stacks of open constructs and overwrites jump operands in place. */
module Emitter {
  import opened ExprLowering
  import opened Compositional
  import opened Emission
  import opened Cfg
  import opened DfsOrder
  import opened Compiler
  import Ir
  import M = Machine

  /** What is left to emit, from a given stack and set of visited blocks. */
  function EmitRest(g: Graph, frontier: seq<int>, visited: set<int>, es: EmitterState): Option<EmitterState> {
    match Dfs(g, frontier, visited)
    case None => None
    case Some(ids) =>
      DfsInRange(g, frontier, visited);
      EmitSteps(es, StepsOf(g, ids))
  }

  /** Every marker met on the walk finds the construct it needs, up to a missing block. */
  ghost predicate Walkable(g: Graph, frontier: seq<int>, visited: set<int>, es: EmitterState)
    decreases |Unvisited(|g|, visited)|, |frontier|
  {
    if frontier == [] then true
    else
      var id, rest := frontier[|frontier| - 1], frontier[..|frontier| - 1];
      if id in visited then Walkable(g, rest, visited, es)
      else if !(0 <= id < |g|) then true
      else
        VisitShrinks(|g|, visited, id);
        match EmitSteps(es, g[id].steps)
        case None => false
        case Some(es') => Walkable(g, rest + Pushed(g[id]), visited + {id}, es')
  }

  /** Where the walk finds every block, walkable means that the emission is defined. */
  lemma {:induction false} WalkableExactly(g: Graph, frontier: seq<int>, visited: set<int>, es: EmitterState)
    requires Dfs(g, frontier, visited).Some?
    ensures Walkable(g, frontier, visited, es) <==> EmitRest(g, frontier, visited, es).Some?
    decreases |Unvisited(|g|, visited)|, |frontier|
  {
    if frontier != [] {
      var id, rest := frontier[|frontier| - 1], frontier[..|frontier| - 1];
      if id in visited {
        WalkableExactly(g, rest, visited, es);
      } else {
        VisitShrinks(|g|, visited, id);
        VisitEmits(g, frontier, visited, es);
        match EmitSteps(es, g[id].steps)
        case None =>
        case Some(es') => WalkableExactly(g, rest + Pushed(g[id]), visited + {id}, es');
      }
    }
  }

  /** Visiting the block on top of the stack. */
  lemma VisitEmits(g: Graph, frontier: seq<int>, visited: set<int>, es: EmitterState)
    requires frontier != [] && frontier[|frontier| - 1] !in visited && 0 <= frontier[|frontier| - 1] < |g|
    ensures var id, rest := frontier[|frontier| - 1], frontier[..|frontier| - 1];
            var next, seen := rest + Pushed(g[id]), visited + {id};
            && (Dfs(g, frontier, visited).None? <==> Dfs(g, next, seen).None?)
            && EmitRest(g, frontier, visited, es) ==
                 match EmitSteps(es, g[id].steps)
                 case None => None
                 case Some(es') => EmitRest(g, next, seen, es')
  {
    var id, rest := frontier[|frontier| - 1], frontier[..|frontier| - 1];
    var next, seen := rest + Pushed(g[id]), visited + {id};
    match Dfs(g, next, seen)
    case None =>
    case Some(ids) =>
      DfsInRange(g, next, seen);
      assert ([id] + ids)[1..] == ids;
      EmitAppend(es, g[id].steps, StepsOf(g, ids));
  }

  /** The same for all functions of a program. */
  ghost predicate AllWalkable(graphs: seq<Graph>, es: EmitterState) {
    graphs == [] ||
    (&& Walkable(graphs[0], [0], {}, EmitterState([], es.ifs, es.loops))
     && match EmitChunk(graphs[0], es)
        case None => true
        case Some(es') => AllWalkable(graphs[1..], es'))
  }

  class Emitter {
    var chunks: seq<M.Chunk>
    var code: M.Chunk
    var ifs: seq<ActiveIf>
    var loops: seq<ActiveLoop>

    constructor ()
      ensures chunks == [] && Now() == EmitterState([], [], [])
    {
      chunks, code, ifs, loops := [], [], [], [];
    }

    /** `code` is the newest chunk. */
    function Now(): EmitterState
      reads this
    {
      EmitterState(code, ifs, loops)
    }

    method PatchFirst(ips: seq<int>, target: int)
      requires AllInChunk(code, ips)
      modifies this`code
      ensures code == PatchAll(old(code), ips, target)
    {
      var i := 0;
      while i < |ips|
        invariant 0 <= i <= |ips| && |code| == |old(code)| && AllInChunk(code, ips[i..])
        invariant PatchAll(old(code), ips, target) == PatchAll(code, ips[i..], target)
      {
        assert ips[i..][0] == ips[i] && ips[i..][1..] == ips[i + 1..];
        code := code[ips[i] := SetTarget0(code[ips[i]], target)];
        i := i + 1;
      }
    }

    method EndWhile()
      requires loops != [] && EndWhileStep(Now()).Some?
      modifies this
      ensures chunks == old(chunks) && Some(Now()) == EndWhileStep(old(Now()))
    {
      var exit := |code| - 1;
      var loop := Last(loops);
      code := code[loop.check := SetTarget1(code[loop.check], exit)];
      PatchFirst(loop.brks, exit);
      PatchFirst(loop.conts, loop.start);
      loops := Pop(loops);
    }

    method EndIf()
      requires ifs != [] && EndIfStep(Now()).Some?
      modifies this
      ensures chunks == old(chunks) && Some(Now()) == EndIfStep(old(Now()))
    {
      var end := |code| - 1;
      var cond := Last(ifs);
      if cond.alt != -1 {
        code := code[cond.check := SetTarget1(code[cond.check], cond.alt + 1)];
        code := code[cond.alt := SetTarget0(code[cond.alt], end)];
      } else {
        code := code[cond.check := SetTarget1(code[cond.check], end)];
      }
      ifs := Pop(ifs);
    }

    method EmitMarker(meta: Ir.Meta)
      requires Emission.EmitMarker(Now(), meta).Some?
      modifies this
      ensures chunks == old(chunks) && Some(Now()) == Emission.EmitMarker(old(Now()), meta)
    {
      var last := |code| - 1;
      match meta
      case Pass => code := code + [NOP];
      case BeginWhile => loops := loops + [ActiveLoop([], [], |code|, 0, 0)];
      case EndWhile => EndWhile();
      case MarkWhileCheck => loops := WithLast(loops, Last(loops).(check := last));
      case MarkBreak => loops := WithLast(loops, Last(loops).(brks := Last(loops).brks + [last]));
      case MarkContinue => loops := WithLast(loops, Last(loops).(conts := Last(loops).conts + [last]));
      case BeginIfElse => ifs := ifs + [ActiveIf(0, -1, 0)];
      case EndIfElse => EndIf();
      case MarkIfElseCheck => ifs := WithLast(ifs, Last(ifs).(check := last));
      case MarkIfElseAlt => ifs := WithLast(ifs, Last(ifs).(alt := last));
    }

    method EmitStep(step: Ir.Step)
      requires Emission.EmitStep(Now(), step).Some?
      modifies this
      ensures chunks == old(chunks) && Some(Now()) == Emission.EmitStep(old(Now()), step)
    {
      if step.OperNonary? {
        EmitMarker(step.meta);
      } else {
        code := code + TranslateStep(step);
      }
    }

    method EmitBlock(b: BasicBlock)
      requires EmitSteps(Now(), b.steps).Some?
      modifies this
      ensures chunks == old(chunks) && Some(Now()) == EmitSteps(old(Now()), b.steps)
    {
      var i := 0;
      while i < |b.steps|
        invariant 0 <= i <= |b.steps| && chunks == old(chunks)
        invariant EmitSteps(old(Now()), b.steps) == EmitSteps(Now(), b.steps[i..])
      {
        assert b.steps[i..][0] == b.steps[i] && b.steps[i..][1..] == b.steps[i + 1..];
        EmitStep(b.steps[i]);
        i := i + 1;
      }
    }

    /** One chunk; false if the walk meets a block that does not exist. */
    method EmitChunk(g: Graph) returns (ok: bool)
      requires Walkable(g, [0], {}, EmitterState([], ifs, loops))
      modifies this
      ensures chunks == old(chunks)
      ensures Compiler.EmitChunk(g, old(Now())) == if ok then Some(Now()) else None
    {
      var visited: set<int> := {};
      var frontier := [0];
      code := [];
      ghost var start := Now();
      while frontier != []
        invariant chunks == old(chunks) && Walkable(g, frontier, visited, Now())
        invariant EmitRest(g, [0], {}, start) == EmitRest(g, frontier, visited, Now())
        decreases |Unvisited(|g|, visited)|, |frontier|
      {
        var id := frontier[|frontier| - 1];
        var rest := frontier[..|frontier| - 1];
        if id in visited {
          frontier := rest;
        } else if !(0 <= id < |g|) {
          return false;
        } else {
          VisitEmits(g, frontier, visited, Now());
          VisitShrinks(|g|, visited, id);
          EmitBlock(g[id]);
          visited := visited + {id};
          frontier := rest;
          if g[id].falsy != DUD_BLOCK {
            frontier := frontier + [g[id].falsy];
          }
          if g[id].truthy != DUD_BLOCK {
            frontier := frontier + [g[id].truthy];
          }
          assert frontier == rest + Pushed(g[id]);
        }
      }
      ok := true;
    }

    /** All chunks of a program, in function order. */
    method Emit(ir: FullIr) returns (r: Option<M.Code>)
      requires chunks == [] && Now() == EmitterState([], [], []) && AllWalkable(ir.graphs, Now())
      modifies this
      ensures r == EmitProgram(ir)
    {
      var i := 0;
      ghost var start := Now();
      while i < |ir.graphs|
        invariant 0 <= i <= |ir.graphs| && AllWalkable(ir.graphs[i..], Now())
        invariant EmitChunks(ir.graphs, [], start) == EmitChunks(ir.graphs[i..], chunks, Now())
      {
        assert ir.graphs[i..][0] == ir.graphs[i] && ir.graphs[i..][1..] == ir.graphs[i + 1..];
        var ok := EmitChunk(ir.graphs[i]);
        if !ok {
          return None;
        }
        chunks := chunks + [code];
        i := i + 1;
      }
      r := Some(M.Code(chunks, ir.consts, ir.mainId));
    }
  }
}
