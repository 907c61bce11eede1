/** One-pass emission of a step stream with backpatching (src/bcgen/emitter.cpp:47-416):
    markers record the positions of pending jumps on two stacks, and the closing marker of a
    construct fills in their targets. */
module Emission {
  import opened Values
  import opened Ir
  import opened Compositional
  import opened ExprLowering
  import Machine

  datatype ActiveIf = ActiveIf(check: int, alt: int, end: int)

  datatype ActiveLoop = ActiveLoop(brks: seq<int>, conts: seq<int>, start: int, check: int, exit: int)

  datatype EmitterState = EmitterState(code: Machine.Chunk, ifs: seq<ActiveIf>, loops: seq<ActiveLoop>)

  function SetTarget0(i: Machine.Instr, target: int): Machine.Instr {
    i.(a := i.a.(id := target))
  }

  function SetTarget1(i: Machine.Instr, target: int): Machine.Instr {
    i.(b := i.b.(id := target))
  }

  predicate InChunk(code: Machine.Chunk, ip: int) {
    0 <= ip < |code|
  }

  predicate AllInChunk(code: Machine.Chunk, ips: seq<int>) {
    forall i | 0 <= i < |ips| :: 0 <= ips[i] < |code|
  }

  /** Overwrite the first operand of every listed instruction. */
  function PatchAll(code: Machine.Chunk, ips: seq<int>, target: int): (r: Machine.Chunk)
    requires AllInChunk(code, ips)
    ensures |r| == |code|
    decreases |ips|
  {
    if ips == [] then code
    else PatchAll(code[ips[0] := SetTarget0(code[ips[0]], target)], ips[1..], target)
  }

  function Last<T>(s: seq<T>): T
    requires s != []
  {
    s[|s| - 1]
  }

  function WithLast<T>(s: seq<T>, x: T): (r: seq<T>)
    requires s != []
    ensures |r| == |s|
  {
    s[|s| - 1 := x]
  }

  function Pop<T>(s: seq<T>): seq<T>
    requires s != []
  {
    s[..|s| - 1]
  }

  function EndWhileStep(es: EmitterState): Option<EmitterState>
    requires es.loops != []
  {
    var loop := Last(es.loops);
    var exit := |es.code| - 1;
    if !(InChunk(es.code, loop.check) && AllInChunk(es.code, loop.brks) && AllInChunk(es.code, loop.conts)) then None
    else
      var c1 := es.code[loop.check := SetTarget1(es.code[loop.check], exit)];
      var c2 := PatchAll(c1, loop.brks, exit);
      Some(EmitterState(PatchAll(c2, loop.conts, loop.start), es.ifs, Pop(es.loops)))
  }

  function EndIfStep(es: EmitterState): Option<EmitterState>
    requires es.ifs != []
  {
    var cond := Last(es.ifs);
    var end := |es.code| - 1;
    if !InChunk(es.code, cond.check) || (cond.alt != -1 && !InChunk(es.code, cond.alt)) then None
    else if cond.alt != -1 then
      var c1 := es.code[cond.check := SetTarget1(es.code[cond.check], cond.alt + 1)];
      Some(EmitterState(c1[cond.alt := SetTarget0(c1[cond.alt], end)], Pop(es.ifs), es.loops))
    else
      Some(EmitterState(es.code[cond.check := SetTarget1(es.code[cond.check], end)], Pop(es.ifs), es.loops))
  }

  /** A marker that needs an active construct when there is none has no defined effect. */
  function EmitMarker(es: EmitterState, meta: Meta): Option<EmitterState> {
    var last := |es.code| - 1;
    match meta
    case Pass => Some(es.(code := es.code + [NOP]))
    case BeginWhile => Some(es.(loops := es.loops + [ActiveLoop([], [], |es.code|, 0, 0)]))
    case EndWhile => if es.loops == [] then None else EndWhileStep(es)
    case MarkWhileCheck =>
      if es.loops == [] then None
      else Some(es.(loops := WithLast(es.loops, Last(es.loops).(check := last))))
    case MarkBreak =>
      if es.loops == [] then None
      else Some(es.(loops := WithLast(es.loops, Last(es.loops).(brks := Last(es.loops).brks + [last]))))
    case MarkContinue =>
      if es.loops == [] then None
      else Some(es.(loops := WithLast(es.loops, Last(es.loops).(conts := Last(es.loops).conts + [last]))))
    case BeginIfElse => Some(es.(ifs := es.ifs + [ActiveIf(0, -1, 0)]))
    case EndIfElse => if es.ifs == [] then None else EndIfStep(es)
    case MarkIfElseCheck =>
      if es.ifs == [] then None
      else Some(es.(ifs := WithLast(es.ifs, Last(es.ifs).(check := last))))
    case MarkIfElseAlt =>
      if es.ifs == [] then None
      else Some(es.(ifs := WithLast(es.ifs, Last(es.ifs).(alt := last))))
  }

  function EmitStep(es: EmitterState, step: Ir.Step): Option<EmitterState> {
    if step.OperNonary? then EmitMarker(es, step.meta)
    else Some(es.(code := es.code + TranslateStep(step)))
  }

  function EmitSteps(es: EmitterState, steps: seq<Ir.Step>): Option<EmitterState>
    decreases |steps|
  {
    if steps == [] then Some(es)
    else
      match EmitStep(es, steps[0])
      case None => None
      case Some(es') => EmitSteps(es', steps[1..])
  }

  lemma {:induction false} EmitAppend(es: EmitterState, a: seq<Ir.Step>, b: seq<Ir.Step>)
    ensures EmitSteps(es, a + b) ==
            match EmitSteps(es, a) case None => None case Some(es') => EmitSteps(es', b)
    decreases |a|
  {
    if a == [] {
      assert a + b == b;
    } else {
      assert (a + b)[0] == a[0] && (a + b)[1..] == a[1..] + b;
      match EmitStep(es, a[0])
      case None =>
      case Some(es') => EmitAppend(es', a[1..], b);
    }
  }
}
