/** A big-step meaning for Minuet programs, independent of registers, jumps and chunks.
    `fuel` bounds the nesting of calls and the number of loop rounds: a run that needs
    more reports `Timeout`. Blocks open no scope: a name keeps its value to the end of the function,
    and reading one that has none is `Stuck`. */
module Semantics {
  import opened Values
  import opened Syntax

  type Env = map<string, Value>

  /** Why an evaluation yields no value. `OffEnd`: a function body ended without return. */
  datatype Stop = MathError | OffEnd | Timeout | Stuck

  datatype EvalResult = Val(v: Value, heap: Heap) | Stops(why: Stop)

  datatype EvalsResult = Vals(vs: seq<Value>, heaps: Heap) | AllStop(why: Stop)

  datatype ExecResult =
    | Next(env: Env, heap: Heap)
    | Broke(env: Env, heap: Heap)
    | Returned(v: Value, heap: Heap)
    | Halts(why: Stop)

  function FindFunction(fs: seq<Fun>, name: string): (k: nat)
    ensures k <= |fs|
    ensures k < |fs| ==> fs[k].name == name
    ensures k == |fs| ==> forall i | 0 <= i < |fs| :: fs[i].name != name
  {
    if fs == [] then 0
    else if fs[0].name == name then 0
    else 1 + FindFunction(fs[1..], name)
  }

  function PushItem(heap: Heap, id: nat, v: Value): (h: Heap)
    ensures |h| == |heap|
  {
    if id < |heap| then heap[id := heap[id].(items := heap[id].items + [v])] else heap
  }

  function FreezeIf(heap: Heap, id: nat, isTuple: bool): (h: Heap)
    ensures |h| == |heap|
  {
    if isTuple && id < |heap| then heap[id := heap[id].(frozen := true)] else heap
  }

  function Bind(params: seq<string>, vs: seq<Value>): Env
    requires |params| == |vs|
  {
    if params == [] then map[]
    else Bind(params[..|params| - 1], vs[..|vs| - 1])[params[|params| - 1] := vs[|vs| - 1]]
  }

  function Eval(fs: seq<Fun>, e: Expr, env: Env, heap: Heap, fuel: nat): EvalResult
    decreases fuel, 1, e
  {
    match e
    case Literal(kind, lexeme) =>
      if kind != TkIdent then Val(LiteralValue(kind, lexeme), heap)
      else if lexeme in env then Val(env[lexeme], heap)
      else Stops(Stuck)
    case Sequence(items, isTuple) =>
      // A fresh object is created first; the items are then evaluated and appended in order.
      var id := |heap|;
      (match EvalItems(fs, items, id, env, heap + [SeqObj([], false)], fuel)
       case Val(_, h) => Val(Obj(id), FreezeIf(h, id, isTuple))
       case Stops(why) => Stops(why))
    case Call(callee, args) =>
      if !(callee.Literal? && callee.kind == TkIdent) then Stops(Stuck) else
      (match EvalAll(fs, args, env, heap, fuel)
       case Vals(vs, h) => Invoke(fs, callee.lexeme, vs, h, fuel)
       case AllStop(why) => Stops(why))
    case Binary(bop, left, right) =>
      if !bop.Arith? then Stops(Stuck) else
      (match Eval(fs, left, env, heap, fuel)
       case Stops(why) => Stops(why)
       case Val(a, h1) =>
         match Eval(fs, right, env, h1, fuel)
         case Stops(why) => Stops(why)
         case Val(b, h2) => if MathFails(bop.op, a, b) then Stops(MathError) else Val(Apply(bop.op, a, b), h2))
    case Unary(_, _) => Stops(Stuck)
    case Lambda => Stops(Stuck)
    case Assign(_, _) => Stops(Stuck)
  }

  function EvalItems(fs: seq<Fun>, items: seq<Expr>, id: nat, env: Env, heap: Heap, fuel: nat): EvalResult
    decreases fuel, 1, items
  {
    if items == [] then Val(Obj(id), heap)
    else
      match Eval(fs, items[0], env, heap, fuel)
      case Stops(why) => Stops(why)
      case Val(v, h) => EvalItems(fs, items[1..], id, env, PushItem(h, id, v), fuel)
  }

  function EvalAll(fs: seq<Fun>, args: seq<Expr>, env: Env, heap: Heap, fuel: nat): (r: EvalsResult)
    ensures r.Vals? ==> |r.vs| == |args|
    decreases fuel, 1, args
  {
    if args == [] then Vals([], heap)
    else
      match Eval(fs, args[0], env, heap, fuel)
      case Stops(why) => AllStop(why)
      case Val(v, h) =>
        match EvalAll(fs, args[1..], env, h, fuel)
        case AllStop(why) => AllStop(why)
        case Vals(vs, h2) => Vals([v] + vs, h2)
  }

  function Invoke(fs: seq<Fun>, name: string, vs: seq<Value>, heap: Heap, fuel: nat): EvalResult
    decreases fuel, 0
  {
    var k := FindFunction(fs, name);
    if k == |fs| || |fs[k].params| != |vs| then Stops(Stuck)
    else if fuel == 0 then Stops(Timeout)
    else
      match Exec(fs, fs[k].body, Bind(fs[k].params, vs), heap, fuel - 1)
      case Returned(v, h) => Val(v, h)
      case Next(_, _) => Stops(OffEnd)
      case Broke(_, _) => Stops(Stuck)
      case Halts(why) => Stops(why)
  }

  function Exec(fs: seq<Fun>, ss: seq<Stmt>, env: Env, heap: Heap, fuel: nat): ExecResult
    decreases fuel, 1, ss
  {
    if ss == [] then Next(env, heap)
    else
      match ExecStmt(fs, ss[0], env, heap, fuel)
      case Next(env', h) => Exec(fs, ss[1..], env', h, fuel)
      case other => other
  }

  function ExecStmt(fs: seq<Fun>, s: Stmt, env: Env, heap: Heap, fuel: nat): ExecResult
    decreases fuel, 1, s
  {
    match s
    case ExprStmt(e) =>
      if e.Assign? then
        if !(e.target.Literal? && e.target.kind == TkIdent) then Halts(Stuck) else
        match Eval(fs, e.value, env, heap, fuel)
        case Val(v, h) => Next(env[e.target.lexeme := v], h)
        case Stops(why) => Halts(why)
      else
        (match Eval(fs, e, env, heap, fuel)
         case Val(_, h) => Next(env, h)
         case Stops(why) => Halts(why))
    case LocalDef(name, init) =>
      (match Eval(fs, init, env, heap, fuel)
       case Val(v, h) => Next(env[name := v], h)
       case Stops(why) => Halts(why))
    case If(cond, thn, els) =>
      (match Eval(fs, cond, env, heap, fuel)
       case Stops(why) => Halts(why)
       case Val(v, h) =>
         if Truthy(v) then Exec(fs, thn, env, h, fuel)
         else if els.NoElse? then Next(env, h)
         else Exec(fs, els.body, env, h, fuel))
    case Return(result) =>
      (match Eval(fs, result, env, heap, fuel)
       case Val(v, h) => Returned(v, h)
       case Stops(why) => Halts(why))
    case While(check, body) =>
      if fuel == 0 then Halts(Timeout) else
      (match Eval(fs, check, env, heap, fuel)
       case Stops(why) => Halts(why)
       case Val(v, h) =>
         if !Truthy(v) then Next(env, h) else
         match Exec(fs, body, env, h, fuel)
         case Next(env', h') => ExecStmt(fs, s, env', h', fuel - 1)
         case Broke(env', h') => Next(env', h')
         case Returned(v', h') => Returned(v', h')
         case Halts(why) => Halts(why))
    case Break => Broke(env, heap)
  }

  /** The meaning of a whole program: call `main` without arguments on an empty heap. */
  function RunMain(p: Program, fuel: nat): EvalResult {
    Invoke(Functions(p), "main", [], [], fuel)
  }
}
