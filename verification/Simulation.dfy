/** Running compiled code does what the source semantics says: one lemma per construct, for
    every amount of fuel, covering values, errors and runs that do not end. */
module Simulation {
  import opened Values
  import opened Syntax
  import opened Semantics
  import opened ExprLowering
  import opened Fragment
  import opened LoweringFacts
  import opened CompileFacts
  import opened Compositional
  import opened SimulationBase
  import opened SimulationControl
  import M = Machine
  import Ir

  ghost predicate ExprDone(
    l: Linked, s: M.State, k: nat, fuel: nat, res: EvalResult, len: int, n: int, next: int, lim: int, aa: Ir.Addr)
  {
    match res
    case Val(v, h) =>
      var t := M.Steps(l.code, s, k);
      && Advanced(s, t, len, n, next, lim, h) && |s.heap| <= |h|
      && M.Fetch(l.code, t, Translate(aa)) == M.Found(v)
    case Stops(why) => Stopped(l.code, s, k, fuel, why)
  }

  ghost predicate ExprReady(l: Linked, s: M.State, e: Expr, nm: Names, pool: Pool, env: Env, n: nat, lim: nat) {
    var r := LowerExpr(nm, e, pool, n);
    && WellLinked(l) && Ready(l, s, nm, pool, env, n, lim) && OkExpr(l.sg, e, nm.locals.Keys, n, lim)
    && Placed(l.code, s.fn, s.ip, TranslateAll(r.steps)) && r.pool.consts <= l.code.consts
    && Ahead(Table(l, s.fn), nm, r.next)
  }

  ghost predicate ExprSimulated(
    l: Linked, s: M.State, k: nat, e: Expr, nm: Names, pool: Pool, env: Env, n: nat, lim: nat, fuel: nat)
  {
    var r := LowerExpr(nm, e, pool, n);
    ExprDone(l, s, k, fuel, Eval(l.sg.fs, e, env, s.heap, fuel), |TranslateAll(r.steps)|, n, r.next, lim, Result(r))
  }

  lemma SimulateLiteral(
    l: Linked, s: M.State, e: Expr, nm: Names, pool: Pool, env: Env, n: nat, lim: nat, fuel: nat)
    requires e.Literal? && ExprReady(l, s, e, nm, pool, env, n, lim)
    ensures ExprSimulated(l, s, 0, e, nm, pool, env, n, lim, fuel)
  {
    hide WellLinked, GoodPool, GoodNames, NamesOk;
    LinkedNames(l);
    ReadyParts(l, s, nm, pool, env, n, lim);
    if e.kind == TkIdent {
      LookupLocal(l.sg, nm, pool, n, e.lexeme);
      assert e.lexeme in nm.locals;
    } else {
      InternGood(l.sg.fs, pool, e.kind, e.lexeme);
      var (aa, p) := Intern(pool, e.lexeme, LiteralValue(e.kind, e.lexeme));
      FetchConst(l, s, aa, p);
    }
  }

  /** An expression that is about to run has been lowered. */
  lemma ExprFacts(l: Linked, s: M.State, e: Expr, nm: Names, pool: Pool, env: Env, n: nat, lim: nat)
    requires WellLinked(l) && Ready(l, s, nm, pool, env, n, lim) && OkExpr(l.sg, e, nm.locals.Keys, n, lim)
    ensures var r := LowerExpr(nm, e, pool, n);
            && LowersWell(l.sg, nm, e, pool, n) && r.next == n + Temps(e) && r.addr.Some?
            && Extends(r.pool, pool) && GoodPool(l.sg.fs, r.pool) && ValidAddr(r.addr.value, r.pool, r.next)
  {
    hide OkExpr, LowerExpr, Temps, WellLinked, Ready, NamesOk, GoodPool, GoodNames, ValidAddr, Extends;
    LinkedNames(l);
    ReadyParts(l, s, nm, pool, env, n, lim);
    LowerSucceeds(l.sg, nm, e, pool, nm.locals.Keys, n, lim);
  }

  /** The steps of a binary expression: those of its operands, then one. */
  lemma BinarySteps(l: Linked, s: M.State, e: Expr, nm: Names, pool: Pool, env: Env, n: nat, lim: nat)
    requires e.Binary? && WellLinked(l) && Ready(l, s, nm, pool, env, n, lim) && OkExpr(l.sg, e, nm.locals.Keys, n, lim)
    ensures var lo := LowerExpr(nm, e.left, pool, n);
            var ro := LowerExpr(nm, e.right, lo.pool, lo.next);
            var dest := Ir.TempAt(ro.next);
            && e.bop.Arith? && |TranslateStep(Ir.TacBinary(dest, Result(lo), Result(ro), e.bop.op))| == 1
            && LowersWell(l.sg, nm, e.left, pool, n) && LowersWell(l.sg, nm, e.right, lo.pool, lo.next)
            && LowerExpr(nm, e, pool, n) ==
                 Lowered(lo.steps + ro.steps + [Ir.TacBinary(dest, Result(lo), Result(ro), e.bop.op)], Some(dest), ro.pool, ro.next + 1, 0)
  {
    hide WellLinked, Ready, NamesOk, GoodPool, GoodNames, ValidAddr, Extends;
    LinkedNames(l);
    ReadyParts(l, s, nm, pool, env, n, lim);
    LowerSucceeds(l.sg, nm, e.left, pool, nm.locals.Keys, n, lim);
    var lo := LowerExpr(nm, e.left, pool, n);
    GoodNamesGrow(l.sg, nm, n, lo.next);
    LowerSucceeds(l.sg, nm, e.right, lo.pool, nm.locals.Keys, lo.next, lim);
  }

  /** Code of three consecutive parts. */
  lemma PlacedThree(code: M.Code, fn: int, ip: int, a: seq<Ir.Step>, b: seq<Ir.Step>, c: Ir.Step)
    requires Placed(code, fn, ip, TranslateAll(a + b + [c]))
    ensures TranslateAll(a + b + [c]) == TranslateAll(a) + TranslateAll(b) + TranslateStep(c)
    ensures Placed(code, fn, ip, TranslateAll(a))
    ensures Placed(code, fn, ip + |TranslateAll(a)|, TranslateAll(b))
    ensures Placed(code, fn, ip + |TranslateAll(a)| + |TranslateAll(b)|, TranslateStep(c))
  {
    hide TranslateAll, TranslateStep, Placed;
    TranslateAppend(a + b, [c]);
    TranslateAppend(a, b);
    TranslateOne(c);
    PlacedSplit(code, fn, ip, TranslateAll(a) + TranslateAll(b), TranslateStep(c));
    PlacedSplit(code, fn, ip, TranslateAll(a), TranslateAll(b));
  }

  /** The second operand is ready to run where the first left off. */
  lemma SecondReady(
    l: Linked, s: M.State, t: M.State, nm: Names, pool: Pool, pool': Pool, env: Env, len: int,
    n: nat, n1: nat, lim: nat, h: Heap, e: Expr)
    requires WellLinked(l) && Ready(l, s, nm, pool, env, n, lim) && Advanced(s, t, len, n, n1, lim, h) && n <= n1
    requires GoodPool(l.sg.fs, pool') && OkExpr(l.sg, e, nm.locals.Keys, n1, lim)
    requires var r := LowerExpr(nm, e, pool', n1);
             && Placed(l.code, s.fn, s.ip + len, TranslateAll(r.steps)) && r.pool.consts <= l.code.consts
             && n1 <= r.next && Ahead(Table(l, s.fn), nm, r.next)
    ensures ExprReady(l, t, e, nm, pool', env, n1, lim)
  {
    hide WellLinked, OkExpr, LowerExpr, GoodPool, TranslateAll, Table;
    ReadyAfter(l, s, t, nm, pool, pool', env, len, n, n1, lim, h);
  }

  /** Where the parts of a binary expression lie in the code. */
  lemma BinaryLayout(l: Linked, s: M.State, e: Expr, nm: Names, pool: Pool, env: Env, n: nat, lim: nat)
    requires e.Binary? && ExprReady(l, s, e, nm, pool, env, n, lim)
    ensures var lo := LowerExpr(nm, e.left, pool, n);
            var ro := LowerExpr(nm, e.right, lo.pool, lo.next);
            var r := LowerExpr(nm, e, pool, n);
            var len1, len2 := |TranslateAll(lo.steps)|, |TranslateAll(ro.steps)|;
            && e.bop.Arith? && s.frames != [] && n <= lo.next <= ro.next
            && Ahead(Table(l, s.fn), nm, lo.next) && Ahead(Table(l, s.fn), nm, ro.next)
            && GoodPool(l.sg.fs, lo.pool) && ValidAddr(Result(lo), lo.pool, lo.next)
            && lo.pool.consts <= l.code.consts && ro.pool.consts <= l.code.consts
            && OkExpr(l.sg, e.left, nm.locals.Keys, n, lim) && OkExpr(l.sg, e.right, nm.locals.Keys, lo.next, lim)
            && Placed(l.code, s.fn, s.ip, TranslateAll(lo.steps))
            && Placed(l.code, s.fn, s.ip + len1, TranslateAll(ro.steps))
            && Placed(l.code, s.fn, s.ip + (len1 + len2),
                      TranslateStep(Ir.TacBinary(Ir.TempAt(ro.next), Result(lo), Result(ro), e.bop.op)))
            && |TranslateAll(r.steps)| == len1 + len2 + 1 && r.next == ro.next + 1 && Result(r) == Ir.TempAt(ro.next)
  {
    hide WellLinked, Ready, Placed, LowerExpr, TranslateAll, GoodPool, TranslateStep, ValidAddr, Extends;
    ReadyParts(l, s, nm, pool, env, n, lim);
    BinarySteps(l, s, e, nm, pool, env, n, lim);
    var lo := LowerExpr(nm, e.left, pool, n);
    var ro := LowerExpr(nm, e.right, lo.pool, lo.next);
    PlacedThree(l.code, s.fn, s.ip, lo.steps, ro.steps, Ir.TacBinary(Ir.TempAt(ro.next), Result(lo), Result(ro), e.bop.op));
    ExtendsConsts(ro.pool, lo.pool, l.code.consts);
  }

  lemma {:induction false} SimulateBinary(
    l: Linked, s: M.State, e: Expr, nm: Names, pool: Pool, env: Env, n: nat, lim: nat, fuel: nat) returns (k: nat)
    requires e.Binary? && ExprReady(l, s, e, nm, pool, env, n, lim)
    ensures ExprSimulated(l, s, k, e, nm, pool, env, n, lim, fuel)
    decreases fuel, 1, e, 0
  {
    hide WellLinked, Ready, Placed, LowerExpr, OkExpr, TranslateAll, Advanced, M.Fetch, Stopped;
    BinaryLayout(l, s, e, nm, pool, env, n, lim);
    k := SimulateExpr(l, s, e.left, nm, pool, env, n, lim, fuel);
    if Eval(l.sg.fs, e.left, env, s.heap, fuel).Val? {
      k := SimulateRight(l, s, k, e, nm, pool, env, n, lim, fuel);
    }
  }

  /** The second operand and the operation, once the first operand has a value. */
  lemma {:induction false} SimulateRight(
    l: Linked, s: M.State, k1: nat, e: Expr, nm: Names, pool: Pool, env: Env, n: nat, lim: nat, fuel: nat) returns (k: nat)
    requires e.Binary? && ExprReady(l, s, e, nm, pool, env, n, lim)
    requires Eval(l.sg.fs, e.left, env, s.heap, fuel).Val? && ExprSimulated(l, s, k1, e.left, nm, pool, env, n, lim, fuel)
    ensures ExprSimulated(l, s, k, e, nm, pool, env, n, lim, fuel)
    decreases fuel, 1, e.right, 2
  {
    hide WellLinked, Ready, Placed, LowerExpr, OkExpr, TranslateAll, GoodPool, TranslateStep, M.Fetch, ValidAddr, MathFails, Apply, Stopped;
    BinaryLayout(l, s, e, nm, pool, env, n, lim);
    var lo := LowerExpr(nm, e.left, pool, n);
    var ro := LowerExpr(nm, e.right, lo.pool, lo.next);
    var len1, len2 := |TranslateAll(lo.steps)|, |TranslateAll(ro.steps)|;
    var res1 := Eval(l.sg.fs, e.left, env, s.heap, fuel);
    var t1 := M.Steps(l.code, s, k1);
    SecondReady(l, s, t1, nm, pool, lo.pool, env, len1, n, lo.next, lim, res1.heap, e.right);
    var k2 := SimulateExpr(l, t1, e.right, nm, lo.pool, env, lo.next, lim, fuel);
    M.StepsAdd(l.code, s, k1, k2);
    var res2 := Eval(l.sg.fs, e.right, env, t1.heap, fuel);
    k := k1 + k2;
    if res2.Stops? {
      StoppedLater(l.code, s, k1, k2, fuel, res2.why);
    } else {
      var t2 := M.Steps(l.code, t1, k2);
      AdvancedTrans(s, t1, t2, len1, len2, n, lo.next, ro.next, lim, res1.heap, res2.heap);
      FetchKept(l.code, t1, t2, Result(lo), lo.pool, len2, lo.next, ro.next, lim, res2.heap);
      FinishBinary(l, s, t2, k, e.bop.op, lo, ro, res1.v, res2.v, n, lim, len1 + len2, res2.heap, fuel);
      k := k + 1;
    }
  }

  lemma ExtendsConsts(later: Pool, earlier: Pool, consts: seq<Value>)
    requires Extends(later, earlier) && later.consts <= consts
    ensures earlier.consts <= consts
  {
  }

  /** The instruction that combines two operand values. */
  lemma FinishBinary(
    l: Linked, s: M.State, t: M.State, k: nat, op: Arith, lo: Lowered, ro: Lowered, x: Value, y: Value,
    n: nat, lim: nat, len: int, h: Heap, fuel: nat)
    requires t == M.Steps(l.code, s, k) && s.frames != [] && ro.next >= n
    requires Advanced(s, t, len, n, ro.next, lim, h)
    requires Placed(l.code, s.fn, s.ip + len, TranslateStep(Ir.TacBinary(Ir.TempAt(ro.next), Result(lo), Result(ro), op)))
    requires M.Fetch(l.code, t, Translate(Result(lo))) == M.Found(x)
    requires M.Fetch(l.code, t, Translate(Result(ro))) == M.Found(y)
    ensures var u := M.Steps(l.code, s, k + 1);
            if MathFails(op, x, y) then Stopped(l.code, s, k + 1, fuel, MathError)
            else Advanced(s, u, len + 1, n, ro.next + 1, lim, h)
                 && M.Fetch(l.code, u, Translate(Ir.TempAt(ro.next))) == M.Found(Apply(op, x, y))
  {
    hide Placed, TranslateStep, MathFails, Apply;
    hide M.Step;
    M.StepsSucc(l.code, s, k);
    var u := M.Step(l.code, t);
    StepBinary(l.code, t, Result(lo), Result(ro), x, y, op, ro.next, lim);
    if !MathFails(op, x, y) {
      AdvancedTrans(s, t, u, len, 1, n, ro.next, ro.next + 1, lim, h, h);
    }
  }

  // ---------------------------------------------------------------- sequence literals

  /** One step between two groups of steps. */
  lemma PlacedAround(code: M.Code, fn: int, ip: int, a: seq<Ir.Step>, c: Ir.Step, b: seq<Ir.Step>)
    requires Placed(code, fn, ip, TranslateAll(a + [c] + b))
    ensures TranslateAll(a + [c] + b) == TranslateAll(a) + TranslateStep(c) + TranslateAll(b)
    ensures Placed(code, fn, ip, TranslateAll(a))
    ensures Placed(code, fn, ip + |TranslateAll(a)|, TranslateStep(c))
    ensures Placed(code, fn, ip + (|TranslateAll(a)| + |TranslateStep(c)|), TranslateAll(b))
  {
    hide TranslateAll, TranslateStep, Placed;
    TranslateAppend(a + [c], b);
    TranslateAppend(a, [c]);
    TranslateOne(c);
    PlacedSplit(code, fn, ip, TranslateAll(a) + TranslateStep(c), TranslateAll(b));
    PlacedSplit(code, fn, ip, TranslateAll(a), TranslateStep(c));
  }

  ghost predicate ItemsReady(
    l: Linked, s: M.State, items: seq<Expr>, reg: nat, id: nat, nm: Names, pool: Pool, env: Env, n: nat, lim: nat)
  {
    var r := LowerItems(nm, items, Ir.TempAt(reg), pool, n);
    && WellLinked(l) && Ready(l, s, nm, pool, env, n, lim) && OkItems(l.sg, items, nm.locals.Keys, n, lim)
    && Ahead(Table(l, s.fn), nm, r.next) && reg < n && M.Read(s.mem, s.rbp + reg) == Obj(id) && id < |s.heap|
    && Placed(l.code, s.fn, s.ip, TranslateAll(r.steps)) && r.pool.consts <= l.code.consts
  }

  ghost predicate ItemsSimulated(
    l: Linked, s: M.State, k: nat, items: seq<Expr>, reg: nat, id: nat, nm: Names, pool: Pool, env: Env, n: nat, lim: nat, fuel: nat)
  {
    var r := LowerItems(nm, items, Ir.TempAt(reg), pool, n);
    match EvalItems(l.sg.fs, items, id, env, s.heap, fuel)
    case Val(_, h) =>
      Advanced(s, M.Steps(l.code, s, k), |TranslateAll(r.steps)|, n, r.next, lim, h) && |s.heap| <= |h| && n <= r.next
    case Stops(why) => Stopped(l.code, s, k, fuel, why)
  }

  lemma ItemsLayout(
    l: Linked, s: M.State, items: seq<Expr>, reg: nat, id: nat, nm: Names, pool: Pool, env: Env, n: nat, lim: nat)
    requires items != [] && ItemsReady(l, s, items, reg, id, nm, pool, env, n, lim)
    ensures var h := LowerExpr(nm, items[0], pool, n);
            var q := LowerItems(nm, items[1..], Ir.TempAt(reg), h.pool, h.next);
            var r := LowerItems(nm, items, Ir.TempAt(reg), pool, n);
            var len := |TranslateAll(h.steps)|;
            && n <= h.next && GoodPool(l.sg.fs, h.pool) && ExprReady(l, s, items[0], nm, pool, env, n, lim)
            && OkItems(l.sg, items[1..], nm.locals.Keys, h.next, lim) && q.pool.consts <= l.code.consts
            && Placed(l.code, s.fn, s.ip + len, TranslateStep(Ir.OperTernary(Ir.TempAt(reg), Result(h), Ir.Imm(1), Ir.SeqObjPush)))
            && Placed(l.code, s.fn, s.ip + (len + 1), TranslateAll(q.steps))
            && |TranslateAll(r.steps)| == len + 1 + |TranslateAll(q.steps)| && r.next == q.next
  {
    hide WellLinked, Ready, Placed, TranslateAll, GoodPool, GoodNames, NamesOk, ValidAddr, Extends, OkExpr, Temps, LowerExpr;
    ExprFacts(l, s, items[0], nm, pool, env, n, lim);
    LinkedNames(l);
    ReadyParts(l, s, nm, pool, env, n, lim);
    var h := LowerExpr(nm, items[0], pool, n);
    GoodNamesGrow(l.sg, nm, n, h.next);
    LowerItemsSucceeds(l.sg, nm, items[1..], Ir.TempAt(reg), h.pool, nm.locals.Keys, h.next, lim);
    var q := LowerItems(nm, items[1..], Ir.TempAt(reg), h.pool, h.next);
    var push := Ir.OperTernary(Ir.TempAt(reg), Result(h), Ir.Imm(1), Ir.SeqObjPush);
    assert LowerItems(nm, items, Ir.TempAt(reg), pool, n).steps == h.steps + [push] + q.steps;
    PlacedAround(l.code, s.fn, s.ip, h.steps, push, q.steps);
    ExtendsConsts(q.pool, h.pool, l.code.consts);
  }

  lemma {:induction false} SimulateItems(
    l: Linked, s: M.State, items: seq<Expr>, reg: nat, id: nat, nm: Names, pool: Pool, env: Env,
    n: nat, lim: nat, fuel: nat) returns (k: nat)
    requires ItemsReady(l, s, items, reg, id, nm, pool, env, n, lim)
    ensures ItemsSimulated(l, s, k, items, reg, id, nm, pool, env, n, lim, fuel)
    decreases fuel, 1, items, 0
  {
    hide *;
    if items == [] {
      k := 0;
      ItemsNone(l, s, items, reg, id, nm, pool, env, n, lim, fuel);
      return;
    }
    ItemsLayout(l, s, items, reg, id, nm, pool, env, n, lim);
    k := SimulateExpr(l, s, items[0], nm, pool, env, n, lim, fuel);
    if Eval(l.sg.fs, items[0], env, s.heap, fuel).Val? {
      ItemsNext(l, s, k, items, reg, id, nm, pool, env, n, lim, fuel);
      var h := LowerExpr(nm, items[0], pool, n);
      var k2 := SimulateItems(l, M.Steps(l.code, s, k + 1), items[1..], reg, id, nm, h.pool, env, h.next, lim, fuel);
      ItemsFinish(l, s, k + 1, k2, items, reg, id, nm, pool, env, n, lim, fuel, |TranslateAll(h.steps)| + 1);
      k := k + 1 + k2;
    } else {
      ItemsStop(l, s, k, items, reg, id, nm, pool, env, n, lim, fuel);
    }
  }

  lemma ItemsStop(
    l: Linked, s: M.State, k: nat, items: seq<Expr>, reg: nat, id: nat, nm: Names, pool: Pool, env: Env, n: nat, lim: nat, fuel: nat)
    requires items != [] && Eval(l.sg.fs, items[0], env, s.heap, fuel).Stops?
    requires ExprSimulated(l, s, k, items[0], nm, pool, env, n, lim, fuel)
    ensures ItemsSimulated(l, s, k, items, reg, id, nm, pool, env, n, lim, fuel)
  {
    hide Stopped, LowerExpr, LowerItems, TranslateAll;
  }

  /** The first item has been pushed; the others are ready to run. */
  lemma ItemsNext(
    l: Linked, s: M.State, k: nat, items: seq<Expr>, reg: nat, id: nat, nm: Names, pool: Pool, env: Env, n: nat, lim: nat, fuel: nat)
    requires items != [] && ItemsReady(l, s, items, reg, id, nm, pool, env, n, lim)
    requires Eval(l.sg.fs, items[0], env, s.heap, fuel).Val? && ExprSimulated(l, s, k, items[0], nm, pool, env, n, lim, fuel)
    ensures var h := LowerExpr(nm, items[0], pool, n);
            var u := M.Steps(l.code, s, k + 1);
            var res := Eval(l.sg.fs, items[0], env, s.heap, fuel);
            && Advanced(s, u, |TranslateAll(h.steps)| + 1, n, h.next, lim, PushItem(res.heap, id, res.v)) && |s.heap| <= |res.heap|
            && n <= h.next && ItemsReady(l, u, items[1..], reg, id, nm, h.pool, env, h.next, lim)
  {
    hide WellLinked, Ready, Placed, LowerExpr, TranslateAll, GoodPool, TranslateStep, M.Fetch, OkExpr, LowerItems;
    ItemsLayout(l, s, items, reg, id, nm, pool, env, n, lim);
    var h := LowerExpr(nm, items[0], pool, n);
    var len := |TranslateAll(h.steps)|;
    var res := Eval(l.sg.fs, items[0], env, s.heap, fuel);
    ReadyParts(l, s, nm, pool, env, n, lim);
    PushStep(l, s, M.Steps(l.code, s, k), k, reg, id, h, res.v, n, lim, len, res.heap);
    var u := M.Steps(l.code, s, k + 1);
    ReadyAfter(l, s, u, nm, pool, h.pool, env, len + 1, n, h.next, lim, u.heap);
  }

  lemma ItemsNone(
    l: Linked, s: M.State, items: seq<Expr>, reg: nat, id: nat, nm: Names, pool: Pool, env: Env, n: nat, lim: nat, fuel: nat)
    requires items == [] && ItemsReady(l, s, items, reg, id, nm, pool, env, n, lim)
    ensures ItemsSimulated(l, s, 0, items, reg, id, nm, pool, env, n, lim, fuel)
  {
    hide WellLinked, GoodPool, GoodNames, Placed;
  }

  lemma PushStep(
    l: Linked, s: M.State, t: M.State, k: nat, reg: nat, id: nat, r: Lowered, v: Value, n: nat, lim: nat, len: int, h: Heap)
    requires t == M.Steps(l.code, s, k) && s.frames != [] && r.next >= n && reg < n
    requires Advanced(s, t, len, n, r.next, lim, h) && |s.heap| <= |h|
    requires M.Read(s.mem, s.rbp + reg) == Obj(id) && id < |s.heap|
    requires M.Fetch(l.code, t, Translate(Result(r))) == M.Found(v)
    requires Placed(l.code, s.fn, s.ip + len, TranslateStep(Ir.OperTernary(Ir.TempAt(reg), Result(r), Ir.Imm(1), Ir.SeqObjPush)))
    ensures var u := M.Steps(l.code, s, k + 1);
            Advanced(s, u, len + 1, n, r.next, lim, PushItem(h, id, v)) && M.Read(u.mem, s.rbp + reg) == Obj(id)
  {
    hide Placed, TranslateStep, PushItem;
    hide M.Step;
    M.StepsSucc(l.code, s, k);
    var u := M.Step(l.code, t);
    StepPushItem(l.code, t, reg, id, Result(r), v, r.next, lim);
    AdvancedTrans(s, t, u, len, 1, n, r.next, r.next, lim, h, PushItem(h, id, v));
  }

  lemma ItemsFinish(
    l: Linked, s: M.State, k1: nat, k2: nat, items: seq<Expr>, reg: nat, id: nat, nm: Names, pool: Pool, env: Env,
    n: nat, lim: nat, fuel: nat, len: int)
    requires items != [] && Eval(l.sg.fs, items[0], env, s.heap, fuel).Val?
    requires var h := LowerExpr(nm, items[0], pool, n);
             var q := LowerItems(nm, items[1..], Ir.TempAt(reg), h.pool, h.next);
             var r := LowerItems(nm, items, Ir.TempAt(reg), pool, n);
             var u := M.Steps(l.code, s, k1);
             var res := Eval(l.sg.fs, items[0], env, s.heap, fuel);
             && n <= h.next && |TranslateAll(r.steps)| == len + |TranslateAll(q.steps)| && r.next == q.next
             && Advanced(s, u, len, n, h.next, lim, PushItem(res.heap, id, res.v)) && |s.heap| <= |res.heap|
             && ItemsSimulated(l, u, k2, items[1..], reg, id, nm, h.pool, env, h.next, lim, fuel)
    ensures ItemsSimulated(l, s, k1 + k2, items, reg, id, nm, pool, env, n, lim, fuel)
  {
    hide LowerExpr, LowerItems, TranslateAll, Stopped;
    M.StepsAdd(l.code, s, k1, k2);
    var h := LowerExpr(nm, items[0], pool, n);
    var q := LowerItems(nm, items[1..], Ir.TempAt(reg), h.pool, h.next);
    var u := M.Steps(l.code, s, k1);
    match EvalItems(l.sg.fs, items[1..], id, env, u.heap, fuel)
    case Val(_, h2) =>
      AdvancedTrans(s, u, M.Steps(l.code, u, k2), len, |TranslateAll(q.steps)|, n, h.next, q.next, lim, u.heap, h2);
    case Stops(why) => StoppedLater(l.code, s, k1, k2, fuel, why);
  }

  lemma SequenceLayout(l: Linked, s: M.State, e: Expr, nm: Names, pool: Pool, env: Env, n: nat, lim: nat)
    requires e.Sequence? && ExprReady(l, s, e, nm, pool, env, n, lim)
    ensures var dest := Ir.TempAt(n);
            var q := LowerItems(nm, e.items, dest, pool, n + 1);
            var r := LowerExpr(nm, e, pool, n);
            var len := 1 + |TranslateAll(q.steps)|;
            && s.frames != [] && n + 1 <= q.next == r.next && q.pool.consts <= l.code.consts && Result(r) == dest
            && Ahead(Table(l, s.fn), nm, n + 1) && Ahead(Table(l, s.fn), nm, q.next)
            && OkItems(l.sg, e.items, nm.locals.Keys, n + 1, lim)
            && Placed(l.code, s.fn, s.ip, TranslateStep(Ir.OperUnary(dest, Ir.MakeSeq)))
            && Placed(l.code, s.fn, s.ip + 1, TranslateAll(q.steps))
            && (e.isTuple ==> Placed(l.code, s.fn, s.ip + len, TranslateStep(Ir.OperUnary(dest, Ir.FrzSeqObj))))
            && |TranslateAll(r.steps)| == (if e.isTuple then len + 1 else len)
  {
    hide WellLinked, Ready, Placed, TranslateAll, GoodPool, GoodNames, NamesOk, Extends, Ahead, Table;
    LinkedNames(l);
    ReadyParts(l, s, nm, pool, env, n, lim);
    GoodNamesGrow(l.sg, nm, n, n + 1);
    var dest := Ir.TempAt(n);
    LowerItemsSucceeds(l.sg, nm, e.items, dest, pool, nm.locals.Keys, n + 1, lim);
    AheadEarlier(Table(l, s.fn), nm, LowerExpr(nm, e, pool, n).next, n + 1);
    var q := LowerItems(nm, e.items, dest, pool, n + 1);
    var made, frozen := Ir.OperUnary(dest, Ir.MakeSeq), Ir.OperUnary(dest, Ir.FrzSeqObj);
    TranslateOne(made);
    if e.isTuple {
      PlacedThree(l.code, s.fn, s.ip, [made], q.steps, frozen);
    } else {
      assert [] + [made] == [made] && LowerExpr(nm, e, pool, n).steps == [made] + q.steps;
      TranslateAppend([made], q.steps);
      PlacedSplit(l.code, s.fn, s.ip, TranslateAll([made]), TranslateAll(q.steps));
    }
  }

  /** After `make_seq` the items are ready to run, the new object sitting in register `n`. */
  lemma SequenceBegun(l: Linked, s: M.State, e: Expr, nm: Names, pool: Pool, env: Env, n: nat, lim: nat)
    requires e.Sequence? && ExprReady(l, s, e, nm, pool, env, n, lim)
    ensures var t := M.Steps(l.code, s, 1);
            && Advanced(s, t, 1, n, n + 1, lim, s.heap + [SeqObj([], false)])
            && ItemsReady(l, t, e.items, n, |s.heap|, nm, pool, env, n + 1, lim)
  {
    hide WellLinked, Ready, Placed, TranslateAll, GoodPool, TranslateStep, LowerExpr, OkExpr, OkItems, LowerItems, M.Step, M.Steps, Ahead, Table;
    SequenceLayout(l, s, e, nm, pool, env, n, lim);
    ReadyParts(l, s, nm, pool, env, n, lim);
    StepMakeSeq(l.code, s, n, lim);
    M.StepsNone(l.code, s);
    M.StepsSucc(l.code, s, 0);
    var t := M.Step(l.code, s);
    ReadyAfter(l, s, t, nm, pool, pool, env, 1, n, n + 1, lim, t.heap);
  }

  lemma SequenceFinish(
    l: Linked, s: M.State, k: nat, e: Expr, nm: Names, pool: Pool, env: Env, n: nat, lim: nat, fuel: nat) returns (k': nat)
    requires e.Sequence? && ExprReady(l, s, e, nm, pool, env, n, lim)
    requires var t := M.Steps(l.code, s, 1);
             && Advanced(s, t, 1, n, n + 1, lim, s.heap + [SeqObj([], false)]) && M.Read(t.mem, t.rbp + n) == Obj(|s.heap|)
             && ItemsSimulated(l, t, k, e.items, n, |s.heap|, nm, pool, env, n + 1, lim, fuel)
    ensures ExprSimulated(l, s, k', e, nm, pool, env, n, lim, fuel)
  {
    hide WellLinked, Ready, Placed, TranslateAll, GoodPool, TranslateStep, LowerExpr, OkExpr, OkItems, LowerItems, Stopped, EvalItems,
         M.Steps, M.Step;
    SequenceLayout(l, s, e, nm, pool, env, n, lim);
    var q := LowerItems(nm, e.items, Ir.TempAt(n), pool, n + 1);
    var t := M.Steps(l.code, s, 1);
    M.StepsAdd(l.code, s, 1, k);
    k' := 1 + k;
    match EvalItems(l.sg.fs, e.items, |s.heap|, env, t.heap, fuel)
    case Stops(why) => StoppedLater(l.code, s, 1, k, fuel, why);
    case Val(_, h) =>
      var u := M.Steps(l.code, t, k);
      var len := 1 + |TranslateAll(q.steps)|;
      AdvancedTrans(s, t, u, 1, len - 1, n, n + 1, q.next, lim, t.heap, h);
      if e.isTuple {
        FreezeStep(l, s, u, k', n, |s.heap|, q.next, lim, len, h);
        k' := k' + 1;
      }
  }

  lemma FreezeStep(l: Linked, s: M.State, t: M.State, k: nat, n: nat, id: nat, next: nat, lim: nat, len: int, h: Heap)
    requires t == M.Steps(l.code, s, k) && s.frames != [] && n < next && id < |h|
    requires Advanced(s, t, len, n, next, lim, h) && M.Read(t.mem, s.rbp + n) == Obj(id)
    requires Placed(l.code, s.fn, s.ip + len, TranslateStep(Ir.OperUnary(Ir.TempAt(n), Ir.FrzSeqObj)))
    ensures var u := M.Steps(l.code, s, k + 1);
            Advanced(s, u, len + 1, n, next, lim, FreezeIf(h, id, true)) && M.Read(u.mem, s.rbp + n) == Obj(id)
  {
    hide Placed, TranslateStep, FreezeIf;
    hide M.Step;
    M.StepsSucc(l.code, s, k);
    var u := M.Step(l.code, t);
    StepFreezeSeq(l.code, t, n, id, next, lim);
    AdvancedTrans(s, t, u, len, 1, n, next, next, lim, h, FreezeIf(h, id, true));
  }

  lemma {:induction false} SimulateSequence(
    l: Linked, s: M.State, e: Expr, nm: Names, pool: Pool, env: Env, n: nat, lim: nat, fuel: nat) returns (k: nat)
    requires e.Sequence? && ExprReady(l, s, e, nm, pool, env, n, lim)
    ensures ExprSimulated(l, s, k, e, nm, pool, env, n, lim, fuel)
    decreases fuel, 1, e, 0
  {
    SequenceBegun(l, s, e, nm, pool, env, n, lim);
    assert M.Read(M.Steps(l.code, s, 1).mem, M.Steps(l.code, s, 1).rbp + n) == Obj(|s.heap|) by {
      hide WellLinked, Ready, Placed, TranslateAll, GoodPool, LowerItems, OkItems, OkExpr, LowerExpr;
    }
    hide *;
    k := SimulateItems(l, M.Steps(l.code, s, 1), e.items, n, |s.heap|, nm, pool, env, n + 1, lim, fuel);
    k := SequenceFinish(l, s, k, e, nm, pool, env, n, lim, fuel);
  }

  // ---------------------------------------------------------------- calls

  ghost predicate ArgsReady(
    l: Linked, s: M.State, args: seq<Expr>, nm: Names, pool: Pool, env: Env, n: nat, lim: nat)
  {
    var r := LowerArgs(nm, args, pool, n);
    && WellLinked(l) && Ready(l, s, nm, pool, env, n, lim) && OkArgs(l.sg, args, nm.locals.Keys, n, lim)
    && Ahead(Table(l, s.fn), nm, r.next) && Placed(l.code, s.fn, s.ip, TranslateAll(r.steps)) && r.pool.consts <= l.code.consts
  }

  /** The last `|vs|` of the first `next` registers hold `vs`. */
  ghost predicate Window(t: M.State, next: int, vs: seq<Value>) {
    forall i | 0 <= i < |vs| :: M.Read(t.mem, t.rbp + next - |vs| + i) == vs[i]
  }

  /** All arguments are evaluated; if all but the first are atoms they lie side by side. */
  ghost predicate ArgsSimulated(
    l: Linked, s: M.State, k: nat, args: seq<Expr>, nm: Names, pool: Pool, env: Env, n: nat, lim: nat, fuel: nat)
  {
    var r := LowerArgs(nm, args, pool, n);
    match EvalAll(l.sg.fs, args, env, s.heap, fuel)
    case Vals(vs, h) =>
      var t := M.Steps(l.code, s, k);
      && Advanced(s, t, |TranslateAll(r.steps)|, n, r.next, lim, h) && |s.heap| <= |h| && n <= r.next
      && (args == [] ==> t == s)
      && (args != [] ==> t.rft >= s.rbp + r.next - 1 && (Atoms(args[1..]) ==> Window(t, r.next, vs)))
    case AllStop(why) => Stopped(l.code, s, k, fuel, why)
  }

  lemma {:induction false} AtomTemps(args: seq<Expr>)
    requires Atoms(args)
    ensures ArgTemps(args) == |args|
  {
    if args != [] {
      AtomTemps(args[1..]);
    }
  }

  lemma ArgsLayout(l: Linked, s: M.State, args: seq<Expr>, nm: Names, pool: Pool, env: Env, n: nat, lim: nat)
    requires args != [] && ArgsReady(l, s, args, nm, pool, env, n, lim)
    ensures var h := LowerExpr(nm, args[0], pool, n);
            var q := LowerArgs(nm, args[1..], h.pool, h.next + 1);
            var r := LowerArgs(nm, args, pool, n);
            var len := |TranslateAll(h.steps)|;
            && s.frames != [] && n <= h.next && GoodPool(l.sg.fs, h.pool) && ExprReady(l, s, args[0], nm, pool, env, n, lim)
            && OkArgs(l.sg, args[1..], nm.locals.Keys, h.next + 1, lim) && q.pool.consts <= l.code.consts
            && Placed(l.code, s.fn, s.ip + len, TranslateStep(Ir.TacMove(Ir.TempAt(h.next), Result(h))))
            && Placed(l.code, s.fn, s.ip + (len + 1), TranslateAll(q.steps))
            && |TranslateAll(r.steps)| == len + 1 + |TranslateAll(q.steps)| && r.next == q.next
            && q.next == h.next + 1 + ArgTemps(args[1..])
  {
    hide WellLinked, Ready, Placed, TranslateAll, GoodPool, GoodNames, NamesOk, ValidAddr, Extends, OkExpr, Temps, LowerExpr;
    ExprFacts(l, s, args[0], nm, pool, env, n, lim);
    LinkedNames(l);
    ReadyParts(l, s, nm, pool, env, n, lim);
    var h := LowerExpr(nm, args[0], pool, n);
    GoodNamesGrow(l.sg, nm, n, h.next + 1);
    LowerArgsSucceeds(l.sg, nm, args[1..], h.pool, nm.locals.Keys, h.next + 1, lim);
    var q := LowerArgs(nm, args[1..], h.pool, h.next + 1);
    var move := Ir.TacMove(Ir.TempAt(h.next), Result(h));
    assert LowerArgs(nm, args, pool, n).steps == h.steps + [move] + q.steps;
    PlacedAround(l.code, s.fn, s.ip, h.steps, move, q.steps);
    ExtendsConsts(q.pool, h.pool, l.code.consts);
  }

  lemma MoveStep(l: Linked, s: M.State, t: M.State, k: nat, aa: Ir.Addr, v: Value, n: nat, next: nat, lim: nat, len: int, h: Heap)
    requires t == M.Steps(l.code, s, k) && s.frames != [] && next >= n
    requires Advanced(s, t, len, n, next, lim, h) && M.Fetch(l.code, t, Translate(aa)) == M.Found(v)
    requires Placed(l.code, s.fn, s.ip + len, TranslateStep(Ir.TacMove(Ir.TempAt(next), aa)))
    ensures var u := M.Steps(l.code, s, k + 1);
            && Advanced(s, u, len + 1, n, next + 1, lim, h) && M.Read(u.mem, s.rbp + next) == v && u.rft >= s.rbp + next
  {
    hide Placed, M.Step;
    M.StepsSucc(l.code, s, k);
    var u := M.Step(l.code, t);
    StepMove(l.code, t, aa, v, next, lim);
    AdvancedTrans(s, t, u, len, 1, n, next, next + 1, lim, h, h);
  }

  /** The first argument has been moved to its register; the others are ready to run. */
  lemma ArgsNext(
    l: Linked, s: M.State, k: nat, args: seq<Expr>, nm: Names, pool: Pool, env: Env, n: nat, lim: nat, fuel: nat)
    requires args != [] && ArgsReady(l, s, args, nm, pool, env, n, lim)
    requires Eval(l.sg.fs, args[0], env, s.heap, fuel).Val? && ExprSimulated(l, s, k, args[0], nm, pool, env, n, lim, fuel)
    ensures var h := LowerExpr(nm, args[0], pool, n);
            var u := M.Steps(l.code, s, k + 1);
            var res := Eval(l.sg.fs, args[0], env, s.heap, fuel);
            && Advanced(s, u, |TranslateAll(h.steps)| + 1, n, h.next + 1, lim, res.heap) && |s.heap| <= |res.heap|
            && M.Read(u.mem, s.rbp + h.next) == res.v && u.rft >= s.rbp + h.next
            && n <= h.next && ArgsReady(l, u, args[1..], nm, h.pool, env, h.next + 1, lim)
  {
    hide WellLinked, Ready, Placed, LowerExpr, TranslateAll, GoodPool, TranslateStep, M.Fetch, OkExpr, LowerArgs;
    ArgsLayout(l, s, args, nm, pool, env, n, lim);
    var h := LowerExpr(nm, args[0], pool, n);
    var len := |TranslateAll(h.steps)|;
    var res := Eval(l.sg.fs, args[0], env, s.heap, fuel);
    MoveStep(l, s, M.Steps(l.code, s, k), k, Result(h), res.v, n, h.next, lim, len, res.heap);
    var u := M.Steps(l.code, s, k + 1);
    ReadyAfter(l, s, u, nm, pool, h.pool, env, len + 1, n, h.next + 1, lim, u.heap);
  }

  lemma ArgsFinish(
    l: Linked, s: M.State, k1: nat, k2: nat, args: seq<Expr>, nm: Names, pool: Pool, env: Env,
    n: nat, lim: nat, fuel: nat)
    requires args != [] && ArgsReady(l, s, args, nm, pool, env, n, lim)
    requires Eval(l.sg.fs, args[0], env, s.heap, fuel).Val?
    requires var h := LowerExpr(nm, args[0], pool, n);
             var u := M.Steps(l.code, s, k1);
             var res := Eval(l.sg.fs, args[0], env, s.heap, fuel);
             && n <= h.next && Advanced(s, u, |TranslateAll(h.steps)| + 1, n, h.next + 1, lim, res.heap) && |s.heap| <= |res.heap|
             && M.Read(u.mem, s.rbp + h.next) == res.v && u.rft >= s.rbp + h.next
             && ArgsSimulated(l, u, k2, args[1..], nm, h.pool, env, h.next + 1, lim, fuel)
    ensures ArgsSimulated(l, s, k1 + k2, args, nm, pool, env, n, lim, fuel)
  {
    hide Eval, LowerExpr, LowerArgs, TranslateAll, Stopped, ArgsReady, Placed, GoodPool, OkArgs, Window, ArgTemps, M.Steps;
    var h := LowerExpr(nm, args[0], pool, n);
    var q := LowerArgs(nm, args[1..], h.pool, h.next + 1);
    var r := LowerArgs(nm, args, pool, n);
    var u := M.Steps(l.code, s, k1);
    assert |TranslateAll(r.steps)| == |TranslateAll(h.steps)| + 1 + |TranslateAll(q.steps)| && r.next == q.next
           && q.next == h.next + 1 + ArgTemps(args[1..])
    by {
      ArgsLayout(l, s, args, nm, pool, env, n, lim);
    }
    M.StepsAdd(l.code, s, k1, k2);
    match EvalAll(l.sg.fs, args[1..], env, u.heap, fuel)
    case Vals(vs, h2) =>
      var t := M.Steps(l.code, u, k2);
      AdvancedTrans(s, u, t, |TranslateAll(h.steps)| + 1, |TranslateAll(q.steps)|, n, h.next + 1, q.next, lim, u.heap, h2);
      ArgsWindow(s, u, t, args, h.next, q.next, Eval(l.sg.fs, args[0], env, s.heap, fuel).v, vs, |TranslateAll(q.steps)|, lim, h2);
    case AllStop(why) => StoppedLater(l.code, s, k1, k2, fuel, why);
  }

  lemma ArgsWindow(
    s: M.State, u: M.State, t: M.State, args: seq<Expr>, first: nat, next: nat, v: Value, vs: seq<Value>,
    len: int, lim: nat, h: Heap)
    requires args != [] && |vs| == |args| - 1 && next == first + 1 + ArgTemps(args[1..]) && u.rbp == s.rbp
    requires Advanced(u, t, len, first + 1, next, lim, h) && M.Read(u.mem, s.rbp + first) == v && u.rft >= s.rbp + first
    requires args[1..] != [] ==> t.rft >= u.rbp + next - 1 && (Atoms(args[1..][1..]) ==> Window(t, next, vs))
    requires args[1..] == [] ==> t == u
    ensures t.rft >= s.rbp + next - 1 && (Atoms(args[1..]) ==> Window(t, next, [v] + vs))
  {
    if Atoms(args[1..]) {
      AtomTemps(args[1..]);
      assert M.Read(t.mem, s.rbp + first) == v;
      assert args[1..] != [] ==> Window(t, next, vs);
      forall i | 0 <= i < |[v] + vs| ensures M.Read(t.mem, t.rbp + next - |[v] + vs| + i) == ([v] + vs)[i] {
        if i > 0 {
          assert M.Read(t.mem, t.rbp + next - |vs| + (i - 1)) == vs[i - 1];
        }
      }
    }
  }

  lemma ArgsStop(
    l: Linked, s: M.State, k: nat, args: seq<Expr>, nm: Names, pool: Pool, env: Env, n: nat, lim: nat, fuel: nat)
    requires args != [] && Eval(l.sg.fs, args[0], env, s.heap, fuel).Stops?
    requires ExprSimulated(l, s, k, args[0], nm, pool, env, n, lim, fuel)
    ensures ArgsSimulated(l, s, k, args, nm, pool, env, n, lim, fuel)
  {
    hide Stopped, LowerExpr, LowerArgs, TranslateAll;
  }

  lemma ArgsNone(l: Linked, s: M.State, args: seq<Expr>, nm: Names, pool: Pool, env: Env, n: nat, lim: nat, fuel: nat)
    requires args == [] && ArgsReady(l, s, args, nm, pool, env, n, lim)
    ensures ArgsSimulated(l, s, 0, args, nm, pool, env, n, lim, fuel)
  {
    hide WellLinked, GoodPool, GoodNames, Placed;
  }

  lemma {:induction false} SimulateArgs(
    l: Linked, s: M.State, args: seq<Expr>, nm: Names, pool: Pool, env: Env, n: nat, lim: nat, fuel: nat) returns (k: nat)
    requires ArgsReady(l, s, args, nm, pool, env, n, lim)
    ensures ArgsSimulated(l, s, k, args, nm, pool, env, n, lim, fuel)
    decreases fuel, 1, args, 0
  {
    hide *;
    if args == [] {
      k := 0;
      ArgsNone(l, s, args, nm, pool, env, n, lim, fuel);
      return;
    }
    ArgsLayout(l, s, args, nm, pool, env, n, lim);
    k := SimulateExpr(l, s, args[0], nm, pool, env, n, lim, fuel);
    if Eval(l.sg.fs, args[0], env, s.heap, fuel).Val? {
      ArgsNext(l, s, k, args, nm, pool, env, n, lim, fuel);
      var h := LowerExpr(nm, args[0], pool, n);
      var k2 := SimulateArgs(l, M.Steps(l.code, s, k + 1), args[1..], nm, h.pool, env, h.next + 1, lim, fuel);
      ArgsFinish(l, s, k + 1, k2, args, nm, pool, env, n, lim, fuel);
      k := k + 1 + k2;
    } else {
      ArgsStop(l, s, k, args, nm, pool, env, n, lim, fuel);
    }
  }

  function CallInstr(fn: int, argc: int): M.Instr {
    M.Instr(M.Call, Translate(Ir.Imm(fn)), Translate(Ir.Imm(argc)), NO_ARG)
  }

  /** At a call: the arguments are the topmost registers in use. */
  ghost predicate CallReady(l: Linked, s: M.State, name: string, vs: seq<Value>) {
    var i := FindFunction(l.sg.fs, name);
    && WellLinked(l) && M.Running(s) && i < |l.sg.fs| && |l.sg.fs[i].params| == |vs|
    && Placed(l.code, s.fn, s.ip, [CallInstr(i, |vs|)])
    && forall j | 0 <= j < |vs| :: M.Read(s.mem, s.rft - |vs| + 1 + j) == vs[j]
  }

  /** A finished call changed nothing below its window and left its result at the base of it;
      every special register is as before, and `ip` is one further. */
  ghost predicate CallDone(l: Linked, s: M.State, k: nat, fuel: nat, res: EvalResult, argc: nat) {
    match res
    case Val(v, h) =>
      var t := M.Steps(l.code, s, k);
      && t == s.(ip := s.ip + 1, mem := t.mem, heap := h) && |s.heap| <= |h|
      && M.Read(t.mem, s.rft - argc + 1) == v
      && forall i | i < s.rft - argc + 1 :: M.Read(t.mem, i) == M.Read(s.mem, i)
    case Stops(why) => Stopped(l.code, s, k, fuel, why)
  }

  ghost predicate Binds(env: Env, params: seq<string>, vs: seq<Value>)
    requires |params| == |vs|
  {
    env.Keys == ParamNames(params) && forall i | 0 <= i < |params| :: params[i] in env && env[params[i]] == vs[i]
  }

  lemma BindsMore(env: Env, params: seq<string>, vs: seq<Value>, name: string, v: Value)
    requires |params| == |vs| && Binds(env, params, vs) && name !in params
    ensures Binds(env[name := v], params + [name], vs + [v])
  {
    var all := params + [name];
    assert forall i | 0 <= i < |params| :: all[i] == params[i] && params[i] in params;
    assert ParamNames(all) == ParamNames(params) + {name};
  }

  lemma {:induction false} BindFacts(params: seq<string>, vs: seq<Value>)
    requires Distinct(params) && |params| == |vs|
    ensures Binds(Bind(params, vs), params, vs)
  {
    if params == [] {
      assert ParamNames(params) == {};
    } else {
      hide Binds, ParamNames;
      var m := |params| - 1;
      var init := params[..m];
      BindFacts(init, vs[..m]);
      assert params == init + [params[m]] && vs == vs[..m] + [vs[m]];
      BindsMore(Bind(init, vs[..m]), init, vs[..m], params[m], vs[m]);
    }
  }

  lemma {:induction false} ParamFacts(params: seq<string>)
    requires Distinct(params)
    ensures ParamLocals(params).Keys == ParamNames(params)
    ensures forall i | 0 <= i < |params| :: ParamLocals(params)[params[i]] == Ir.TempAt(i)
  {
    if params != [] {
      var m := |params| - 1;
      var init := params[..m];
      ParamFacts(init);
      assert params == init + [params[m]];
      assert ParamNames(params) == ParamNames(init) + {params[m]};
      forall i | 0 <= i < m ensures ParamLocals(params)[params[i]] == Ir.TempAt(i) {
        assert params[i] == init[i] && init[i] in ParamNames(init);
      }
    }
  }

  lemma CallLayout(l: Linked, s: M.State, e: Expr, nm: Names, pool: Pool, env: Env, n: nat, lim: nat)
    requires e.Call? && ExprReady(l, s, e, nm, pool, env, n, lim)
    ensures var q := LowerArgs(nm, e.args, pool, n);
            var r := LowerExpr(nm, e, pool, n);
            var i := FindFunction(l.sg.fs, e.callee.lexeme);
            var len := |TranslateAll(q.steps)|;
            && e.callee.Literal? && e.callee.kind == TkIdent && i < |l.sg.fs| && |l.sg.fs[i].params| == |e.args|
            && e.args != [] && Atoms(e.args[1..]) && lim <= q.next && q.next == n + ArgTemps(e.args) && |e.args| <= ArgTemps(e.args)
            && ArgsReady(l, s, e.args, nm, pool, env, n, lim)
            && Placed(l.code, s.fn, s.ip + len, [CallInstr(i, |e.args|)])
            && |TranslateAll(r.steps)| == len + 1 && r.next == q.next && Result(r) == Ir.TempAt(q.next - |e.args|)
  {
    hide WellLinked, Ready, Placed, TranslateAll, GoodPool, GoodNames, NamesOk, Extends, OkArgs, LowerArgs, LowerExpr, FindFunction, ArgTemps;
    LinkedNames(l);
    ReadyParts(l, s, nm, pool, env, n, lim);
    LowerArgsSucceeds(l.sg, nm, e.args, pool, nm.locals.Keys, n, lim);
    LowerCall(l.sg, nm, e, pool, nm.locals.Keys, n, lim);
    ArgTempsAtLeast(e.args);
    var q := LowerArgs(nm, e.args, pool, n);
    var call := Ir.OperBinary(Ir.Imm(FindFunction(l.sg.fs, e.callee.lexeme)), Ir.Imm(|e.args|), Ir.CallOp);
    TranslateAppend(q.steps, [call]);
    TranslateOne(call);
    PlacedSplit(l.code, s.fn, s.ip, TranslateAll(q.steps), TranslateStep(call));
  }

  /** Once the arguments are in place the machine is at the call, with `rft` on the last one. */
  lemma CallBegins(
    l: Linked, s: M.State, k: nat, e: Expr, nm: Names, pool: Pool, env: Env, n: nat, lim: nat, fuel: nat)
    requires e.Call? && ExprReady(l, s, e, nm, pool, env, n, lim)
    requires EvalAll(l.sg.fs, e.args, env, s.heap, fuel).Vals? && ArgsSimulated(l, s, k, e.args, nm, pool, env, n, lim, fuel)
    ensures var t := M.Steps(l.code, s, k);
            CallReady(l, t, e.callee.lexeme, EvalAll(l.sg.fs, e.args, env, s.heap, fuel).vs)
            && t.rft == s.rbp + LowerArgs(nm, e.args, pool, n).next - 1
  {
    hide WellLinked, Ready, Placed, LowerExpr, TranslateAll, GoodPool, OkExpr, LowerArgs, FindFunction, ArgTemps, EvalAll, ArgsReady, Atoms, M.Steps;
    assert s.frames != [] by {
      ReadyParts(l, s, nm, pool, env, n, lim);
    }
    CallLayout(l, s, e, nm, pool, env, n, lim);
    var t := M.Steps(l.code, s, k);
    var vs := EvalAll(l.sg.fs, e.args, env, s.heap, fuel).vs;
    var next := LowerArgs(nm, e.args, pool, n).next;
    assert t.rft == s.rbp + next - 1;
    forall j | 0 <= j < |vs| ensures M.Read(t.mem, t.rft - |vs| + 1 + j) == vs[j] {
      assert M.Read(t.mem, t.rbp + next - |vs| + j) == vs[j];
    }
  }

  lemma CallEnds(
    l: Linked, s: M.State, k1: nat, k2: nat, e: Expr, nm: Names, pool: Pool, env: Env, n: nat, lim: nat, fuel: nat)
    requires e.Call? && ExprReady(l, s, e, nm, pool, env, n, lim)
    requires EvalAll(l.sg.fs, e.args, env, s.heap, fuel).Vals? && ArgsSimulated(l, s, k1, e.args, nm, pool, env, n, lim, fuel)
    requires var t := M.Steps(l.code, s, k1);
             var vs := EvalAll(l.sg.fs, e.args, env, s.heap, fuel).vs;
             && t.rft == s.rbp + LowerArgs(nm, e.args, pool, n).next - 1
             && CallDone(l, t, k2, fuel, Invoke(l.sg.fs, e.callee.lexeme, vs, t.heap, fuel), |e.args|)
    ensures ExprSimulated(l, s, k1 + k2, e, nm, pool, env, n, lim, fuel)
  {
    hide WellLinked, Ready, Placed, LowerExpr, TranslateAll, GoodPool, OkExpr, LowerArgs, FindFunction, ArgTemps, EvalAll,
         ArgsReady, Atoms, Invoke, M.Steps, Stopped;
    CallLayout(l, s, e, nm, pool, env, n, lim);
    M.StepsAdd(l.code, s, k1, k2);
    var t := M.Steps(l.code, s, k1);
    match Invoke(l.sg.fs, e.callee.lexeme, EvalAll(l.sg.fs, e.args, env, s.heap, fuel).vs, t.heap, fuel)
    case Val(v, h) =>
    case Stops(why) => StoppedLater(l.code, s, k1, k2, fuel, why);
  }

  lemma CallStop(
    l: Linked, s: M.State, k: nat, e: Expr, nm: Names, pool: Pool, env: Env, n: nat, lim: nat, fuel: nat)
    requires e.Call? && ExprReady(l, s, e, nm, pool, env, n, lim)
    requires EvalAll(l.sg.fs, e.args, env, s.heap, fuel).AllStop? && ArgsSimulated(l, s, k, e.args, nm, pool, env, n, lim, fuel)
    ensures ExprSimulated(l, s, k, e, nm, pool, env, n, lim, fuel)
  {
    hide Stopped, LowerExpr, LowerArgs, TranslateAll, WellLinked, Ready, Placed, EvalAll;
  }

  lemma {:induction false} SimulateCall(
    l: Linked, s: M.State, e: Expr, nm: Names, pool: Pool, env: Env, n: nat, lim: nat, fuel: nat) returns (k: nat)
    requires e.Call? && ExprReady(l, s, e, nm, pool, env, n, lim)
    ensures ExprSimulated(l, s, k, e, nm, pool, env, n, lim, fuel)
    decreases fuel, 1, e, 0
  {
    hide *;
    CallLayout(l, s, e, nm, pool, env, n, lim);
    k := SimulateArgs(l, s, e.args, nm, pool, env, n, lim, fuel);
    var res := EvalAll(l.sg.fs, e.args, env, s.heap, fuel);
    if res.Vals? {
      CallBegins(l, s, k, e, nm, pool, env, n, lim, fuel);
      var k2 := SimulateInvoke(l, M.Steps(l.code, s, k), e.callee.lexeme, res.vs, fuel);
      CallEnds(l, s, k, k2, e, nm, pool, env, n, lim, fuel);
      k := k + k2;
    } else {
      CallStop(l, s, k, e, nm, pool, env, n, lim, fuel);
    }
  }

  lemma {:induction false} SimulateExpr(
    l: Linked, s: M.State, e: Expr, nm: Names, pool: Pool, env: Env, n: nat, lim: nat, fuel: nat) returns (k: nat)
    requires ExprReady(l, s, e, nm, pool, env, n, lim)
    ensures ExprSimulated(l, s, k, e, nm, pool, env, n, lim, fuel)
    decreases fuel, 1, e, 1
  {
    k := 0;
    match e
    case Binary(_, _, _) => k := SimulateBinary(l, s, e, nm, pool, env, n, lim, fuel);
    case Literal(_, _) => SimulateLiteral(l, s, e, nm, pool, env, n, lim, fuel);
    case Sequence(_, _) => k := SimulateSequence(l, s, e, nm, pool, env, n, lim, fuel);
    case Call(_, _) => k := SimulateCall(l, s, e, nm, pool, env, n, lim, fuel);
    case _ =>
  }

  // ---------------------------------------------------------------- statements

  ghost predicate StmtReady(
    l: Linked, s: M.State, st: Stmt, nm: Names, pool: Pool, env: Env, n: nat, lim: nat, inLoop: bool, brk: int)
  {
    var c := CompileStmt(st, nm, pool, n, s.ip, brk);
    && WellLinked(l) && Ready(l, s, nm, pool, env, n, lim)
    && OkStmt(l.sg, st, nm.locals.Keys, n, lim, inLoop)
    && Placed(l.code, s.fn, s.ip, c.code) && c.pool.consts <= l.code.consts && Ahead(Table(l, s.fn), c.nm, c.next)
  }

  ghost predicate StmtSimulated(
    l: Linked, s: M.State, k: nat, st: Stmt, nm: Names, pool: Pool, env: Env, n: nat, lim: nat, inLoop: bool, brk: int, fuel: nat)
  {
    var c := CompileStmt(st, nm, pool, n, s.ip, brk);
    CodeDone(l, s, k, fuel, ExecStmt(l.sg.fs, st, env, s.heap, fuel),
             s.ip + |c.code|, c.next, brk, lim, inLoop)
  }

  ghost predicate BlockReady(
    l: Linked, s: M.State, ss: seq<Stmt>, nm: Names, pool: Pool, env: Env, n: nat, lim: nat, inLoop: bool, brk: int)
  {
    var c := CompileStmts(ss, nm, pool, n, s.ip, brk);
    && WellLinked(l) && Ready(l, s, nm, pool, env, n, lim)
    && OkStmts(l.sg, ss, nm.locals.Keys, n, lim, inLoop)
    && Placed(l.code, s.fn, s.ip, c.code) && c.pool.consts <= l.code.consts && Ahead(Table(l, s.fn), c.nm, c.next)
  }

  ghost predicate BlockSimulated(
    l: Linked, s: M.State, k: nat, ss: seq<Stmt>, nm: Names, pool: Pool, env: Env, n: nat, lim: nat, inLoop: bool, brk: int, fuel: nat)
  {
    var c := CompileStmts(ss, nm, pool, n, s.ip, brk);
    CodeDone(l, s, k, fuel, Exec(l.sg.fs, ss, env, s.heap, fuel),
             s.ip + |c.code|, c.next, brk, lim, inLoop)
  }

  lemma BlockPrepared(
    l: Linked, s: M.State, nm: Names, pool: Pool, env: Env, n: nat, lim: nat)
    requires WellLinked(l) && Ready(l, s, nm, pool, env, n, lim)
    ensures Prepared(l.sg, nm, pool, n)
  {
    hide WellLinked, GoodPool, GoodNames, NamesOk;
    LinkedNames(l);
    ReadyParts(l, s, nm, pool, env, n, lim);
  }

  /** The first statement and the rest of a block, and where their code lies. */
  lemma BlockLayout(
    l: Linked, s: M.State, ss: seq<Stmt>, nm: Names, pool: Pool, env: Env, n: nat, lim: nat, inLoop: bool, brk: int)
    requires ss != [] && BlockReady(l, s, ss, nm, pool, env, n, lim, inLoop, brk)
    ensures var h := CompileStmt(ss[0], nm, pool, n, s.ip, brk);
            var q := CompileStmts(ss[1..], h.nm, h.pool, h.next, s.ip + |h.code|, brk);
            var c := CompileStmts(ss, nm, pool, n, s.ip, brk);
            && h.next == n + StmtTemps(ss[0]) && c.next == q.next && c.nm == q.nm && h.next <= q.next
            && |c.code| == |h.code| + |q.code|
            && StmtReady(l, s, ss[0], nm, pool, env, n, lim, inLoop, brk)
            && GoodPool(l.sg.fs, h.pool) && GoodNames(l.sg, h.nm, h.next) && Ahead(Table(l, s.fn), q.nm, q.next)
            && OkStmts(l.sg, ss[1..], h.nm.locals.Keys, h.next, lim, inLoop)
            && Placed(l.code, s.fn, s.ip + |h.code|, q.code) && q.pool.consts <= l.code.consts
  {
    hide WellLinked, Ready, Placed, CompileStmt, OkStmt, GoodPool, GoodNames, Extends, Keeps, NewFrom, Prepared, Ahead, Table;
    BlockPrepared(l, s, nm, pool, env, n, lim);
    CompileStmtFacts(l.sg, ss[0], nm, pool, n, lim, inLoop, s.ip, brk);
    var h := CompileStmt(ss[0], nm, pool, n, s.ip, brk);
    var q := CompileStmts(ss[1..], h.nm, h.pool, h.next, s.ip + |h.code|, brk);
    LinkedNames(l);
    PrepareAfter(l.sg, h, nm, pool, n, h.next, DefinedBy(ss[0]));
    CompileStmtsFacts(l.sg, ss[1..], h.nm, h.pool, h.next, lim, inLoop, s.ip + |h.code|, brk);
    PlacedSplit(l.code, s.fn, s.ip, h.code, q.code);
    ExtendsConsts(q.pool, h.pool, l.code.consts);
    AheadBefore(Table(l, s.fn), q.nm, q.next, h.nm, h.next);
  }

  /** After the first statement the rest of the block is ready to run. */
  lemma BlockNext(
    l: Linked, s: M.State, k: nat, ss: seq<Stmt>, nm: Names, pool: Pool, env: Env,
    n: nat, lim: nat, inLoop: bool, brk: int, fuel: nat)
    requires ss != [] && BlockReady(l, s, ss, nm, pool, env, n, lim, inLoop, brk)
    requires ExecStmt(l.sg.fs, ss[0], env, s.heap, fuel).Next?
    requires StmtSimulated(l, s, k, ss[0], nm, pool, env, n, lim, inLoop, brk, fuel)
    ensures var h := CompileStmt(ss[0], nm, pool, n, s.ip, brk);
            var r := ExecStmt(l.sg.fs, ss[0], env, s.heap, fuel);
            var t := M.Steps(l.code, s, k);
            && StaysIn(s, t) && t.ip == s.ip + |h.code| && t.heap == r.heap && h.next >= 0
            && BlockReady(l, t, ss[1..], h.nm, h.pool, r.env, h.next, lim, inLoop, brk)
  {
    hide WellLinked, Placed, CompileStmt, CompileStmts, OkStmt, OkStmts, GoodPool, GoodNames, StmtReady, ExecStmt, M.Steps;
    BlockLayout(l, s, ss, nm, pool, env, n, lim, inLoop, brk);
    ReadyParts(l, s, nm, pool, env, n, lim);
  }

  lemma BlockFinish(
    l: Linked, s: M.State, k1: nat, k2: nat, ss: seq<Stmt>, nm: Names, pool: Pool, env: Env,
    n: nat, lim: nat, inLoop: bool, brk: int, fuel: nat)
    requires ss != [] && BlockReady(l, s, ss, nm, pool, env, n, lim, inLoop, brk)
    requires ExecStmt(l.sg.fs, ss[0], env, s.heap, fuel).Next?
    requires var h := CompileStmt(ss[0], nm, pool, n, s.ip, brk);
             var r := ExecStmt(l.sg.fs, ss[0], env, s.heap, fuel);
             var t := M.Steps(l.code, s, k1);
             && StaysIn(s, t) && t.ip == s.ip + |h.code| && t.heap == r.heap && h.next >= 0
             && BlockSimulated(l, t, k2, ss[1..], h.nm, h.pool, r.env, h.next, lim, inLoop, brk, fuel)
    ensures BlockSimulated(l, s, k1 + k2, ss, nm, pool, env, n, lim, inLoop, brk, fuel)
  {
    hide WellLinked, Placed, CompileStmt, OkStmt, OkStmts, GoodPool, GoodNames, StmtReady, ExecStmt, M.Steps, CodeDone, BlockReady;
    BlockLayout(l, s, ss, nm, pool, env, n, lim, inLoop, brk);
    var r := ExecStmt(l.sg.fs, ss[0], env, s.heap, fuel);
    var c := CompileStmts(ss, nm, pool, n, s.ip, brk);
    Lift(l, s, k1, k2, fuel, Exec(l.sg.fs, ss[1..], r.env, r.heap, fuel),
         s.ip + |c.code|, c.next, brk, lim, inLoop);
  }

  /** The first statement did not fall through: its result is the block's. */
  lemma BlockLeaves(
    l: Linked, s: M.State, k: nat, ss: seq<Stmt>, nm: Names, pool: Pool, env: Env,
    n: nat, lim: nat, inLoop: bool, brk: int, fuel: nat)
    requires ss != [] && BlockReady(l, s, ss, nm, pool, env, n, lim, inLoop, brk)
    requires !ExecStmt(l.sg.fs, ss[0], env, s.heap, fuel).Next?
    requires StmtSimulated(l, s, k, ss[0], nm, pool, env, n, lim, inLoop, brk, fuel)
    ensures BlockSimulated(l, s, k, ss, nm, pool, env, n, lim, inLoop, brk, fuel)
  {
    hide WellLinked, Placed, CompileStmt, OkStmt, OkStmts, GoodPool, GoodNames, StmtReady, ExecStmt, M.Steps, CodeDone, BlockReady;
    BlockLayout(l, s, ss, nm, pool, env, n, lim, inLoop, brk);
    var res := ExecStmt(l.sg.fs, ss[0], env, s.heap, fuel);
    var h := CompileStmt(ss[0], nm, pool, n, s.ip, brk);
    var c := CompileStmts(ss, nm, pool, n, s.ip, brk);
    Weaken(l, s, k, fuel, res, s.ip + |h.code|, h.next, brk, lim, inLoop, c.next);
    OtherEnd(l, s, k, fuel, res, s.ip + |h.code|, c.next, brk, lim, inLoop, s.ip + |c.code|);
  }

  lemma BlockEmpty(
    l: Linked, s: M.State, ss: seq<Stmt>, nm: Names, pool: Pool, env: Env, n: nat, lim: nat, inLoop: bool, brk: int, fuel: nat)
    requires ss == [] && BlockReady(l, s, ss, nm, pool, env, n, lim, inLoop, brk)
    ensures BlockSimulated(l, s, 0, ss, nm, pool, env, n, lim, inLoop, brk, fuel)
  {
    hide WellLinked, Placed, GoodPool, GoodNames;
  }

  lemma {:induction false} SimulateStmts(
    l: Linked, s: M.State, ss: seq<Stmt>, nm: Names, pool: Pool, env: Env,
    n: nat, lim: nat, inLoop: bool, brk: int, fuel: nat) returns (k: nat)
    requires BlockReady(l, s, ss, nm, pool, env, n, lim, inLoop, brk)
    ensures BlockSimulated(l, s, k, ss, nm, pool, env, n, lim, inLoop, brk, fuel)
    decreases fuel, 1, ss, 0
  {
    hide *;
    if ss == [] {
      BlockEmpty(l, s, ss, nm, pool, env, n, lim, inLoop, brk, fuel);
      k := 0;
      return;
    }
    BlockLayout(l, s, ss, nm, pool, env, n, lim, inLoop, brk);
    k := SimulateStmt(l, s, ss[0], nm, pool, env, n, lim, inLoop, brk, fuel);
    var r := ExecStmt(l.sg.fs, ss[0], env, s.heap, fuel);
    if r.Next? {
      BlockNext(l, s, k, ss, nm, pool, env, n, lim, inLoop, brk, fuel);
      var h := CompileStmt(ss[0], nm, pool, n, s.ip, brk);
      var k2 := SimulateStmts(l, M.Steps(l.code, s, k), ss[1..], h.nm, h.pool, r.env,
                              h.next, lim, inLoop, brk, fuel);
      BlockFinish(l, s, k, k2, ss, nm, pool, env, n, lim, inLoop, brk, fuel);
      k := k + k2;
    } else {
      BlockLeaves(l, s, k, ss, nm, pool, env, n, lim, inLoop, brk, fuel);
    }
  }

  /** An expression statement, or the value of any other statement, has been computed. */
  lemma ValueReached(
    l: Linked, s: M.State, t: M.State, nm: Names, pool: Pool, env: Env, n: nat, lim: nat, len: int, next: nat, h: Heap)
    requires Ready(l, s, nm, pool, env, n, lim) && Advanced(s, t, len, n, next, lim, h) && n <= next && |s.heap| <= |h|
    requires Ahead(Table(l, s.fn), nm, next)
    ensures Reaches(s, t, s.ip + len, Table(l, s.fn), next, env, h, lim) && M.Running(t)
  {
    hide GoodPool, GoodNames, Agree, Ahead, Table;
    AgreeKept(l.sg, s, t, Table(l, s.fn), nm, env, len, n, next, lim, h);
  }

  /** The expression a statement begins with, and the environment it is ready in. */
  lemma ValueReady(
    l: Linked, s: M.State, e: Expr, nm: Names, pool: Pool, env: Env, n: nat, lim: nat, code: seq<M.Instr>, rest: seq<M.Instr>)
    requires WellLinked(l) && Ready(l, s, nm, pool, env, n, lim) && OkExpr(l.sg, e, nm.locals.Keys, n, lim)
    requires var r := LowerExpr(nm, e, pool, n);
             && code == TranslateAll(r.steps) + rest && Placed(l.code, s.fn, s.ip, code) && r.pool.consts <= l.code.consts
             && Ahead(Table(l, s.fn), nm, r.next)
    ensures var r := LowerExpr(nm, e, pool, n);
            && ExprReady(l, s, e, nm, pool, env, n, lim) && s.frames != []
            && r.addr.Some? && n <= r.next && GoodPool(l.sg.fs, r.pool)
            && Placed(l.code, s.fn, s.ip + |TranslateAll(r.steps)|, rest)
  {
    hide WellLinked, Ready, Placed, LowerExpr, TranslateAll, OkExpr, GoodPool, Temps, Extends, ValidAddr;
    ReadyParts(l, s, nm, pool, env, n, lim);
    ExprFacts(l, s, e, nm, pool, env, n, lim);
    PlacedSplit(l.code, s.fn, s.ip, TranslateAll(LowerExpr(nm, e, pool, n).steps), rest);
  }

  lemma {:induction false} SimulateExprStmt(
    l: Linked, s: M.State, st: Stmt, nm: Names, pool: Pool, env: Env,
    n: nat, lim: nat, inLoop: bool, brk: int, fuel: nat) returns (k: nat)
    requires st.ExprStmt? && !st.expr.Assign? && StmtReady(l, s, st, nm, pool, env, n, lim, inLoop, brk)
    ensures StmtSimulated(l, s, k, st, nm, pool, env, n, lim, inLoop, brk, fuel)
    decreases fuel, 1, st, 0
  {
    hide WellLinked, Ready, Placed, LowerExpr, TranslateAll, OkExpr, GoodPool, Advanced, Reaches, Stopped, M.Fetch, Eval;
    var r := LowerExpr(nm, st.expr, pool, n);
    var code := TranslateAll(r.steps);
    assert code + [] == code;
    ValueReady(l, s, st.expr, nm, pool, env, n, lim, code, []);
    k := SimulateExpr(l, s, st.expr, nm, pool, env, n, lim, fuel);
    var res := Eval(l.sg.fs, st.expr, env, s.heap, fuel);
    if res.Val? {
      ValueReached(l, s, M.Steps(l.code, s, k), nm, pool, env, n, lim, |code|, r.next, res.heap);
    }
  }

  /** A value is moved to the register of a variable that is new or known already. */
  lemma SetStep(
    l: Linked, s: M.State, t: M.State, k: nat, nm: Names, pool: Pool, env: Env, n: nat, lim: nat, len: int, next: nat, h: Heap,
    x: string, aa: Ir.Addr, v: Value, next': nat)
    requires t == M.Steps(l.code, s, k) && Ready(l, s, nm, pool, env, n, lim)
    requires Advanced(s, t, len, n, next, lim, h) && n <= next <= next' && |s.heap| <= |h|
    requires Ahead(Table(l, s.fn), nm, next) && x in Table(l, s.fn) && 0 <= Table(l, s.fn)[x].id < next'
    requires Placed(l.code, s.fn, s.ip + len, [MovInstr(Ir.TempAt(Table(l, s.fn)[x].id), aa)])
    requires M.Fetch(l.code, t, Translate(aa)) == M.Found(v)
    ensures Reaches(s, M.Steps(l.code, s, k + 1), s.ip + (len + 1), Table(l, s.fn), next', env[x := v], h, lim)
  {
    hide GoodPool, GoodNames, Placed, M.Step, M.Steps, M.Fetch, Agree, Ready, Ahead, Table;
    M.StepsSucc(l.code, s, k);
    ReadyParts(l, s, nm, pool, env, n, lim);
    ValueReached(l, s, t, nm, pool, env, n, lim, len, next, h);
    var all := Table(l, s.fn);
    StoreAgrees(t, all, nm, next, env, x, v, M.Max(next, lim), M.Max(next', lim));
    StoreStep(l.code, t, Ir.TempAt(all[x].id), aa, v);
  }

  lemma StoreStep(code: M.Code, t: M.State, dest: Ir.Addr, src: Ir.Addr, v: Value)
    requires M.Running(t) && Placed(code, t.fn, t.ip, [MovInstr(dest, src)]) && M.Fetch(code, t, Translate(src)) == M.Found(v)
    ensures M.Step(code, t) == M.Store(t, dest.id, v)
  {
    hide M.Step, M.Fetch, Placed;
    PlacedOne(code, t, MovInstr(dest, src));
  }

  /** Writing to the register of one variable leaves the others as they were. */
  lemma StoreAgrees(
    t: M.State, all: map<string, Ir.Addr>, nm: Names, next: int, env: Env, x: string, v: Value, top: int, top': int)
    requires Ahead(all, nm, next) && Agree(t, all, env, top) && x in all && 0 <= all[x].id < top' && top <= top'
    ensures Agree(M.Store(t, all[x].id, v), all, env[x := v], top')
  {
    var u := M.Store(t, all[x].id, v);
    forall y | y in env[x := v]
      ensures y in all && 0 <= all[y].id < top' && M.Read(u.mem, u.rbp + all[y].id) == env[x := v][y]
    {
      assert y != x ==> y in env && all[y].id != all[x].id;
    }
  }

  ghost predicate VariableAt(all: map<string, Ir.Addr>, nm: Names, x: string, n: int) {
    x in nm.locals && x in all && all[x] == nm.locals[x] == Ir.TempAt(all[x].id) && 0 <= all[x].id < n
  }

  /** The code of an assignment statement: its value, then a move to the variable. */
  lemma AssignLayout(
    l: Linked, s: M.State, st: Stmt, nm: Names, pool: Pool, env: Env, n: nat, lim: nat, inLoop: bool, brk: int)
    requires st.ExprStmt? && st.expr.Assign? && StmtReady(l, s, st, nm, pool, env, n, lim, inLoop, brk)
    ensures var r := LowerExpr(nm, st.expr.value, pool, n);
            var c := CompileStmt(st, nm, pool, n, s.ip, brk);
            && st.expr.target.Literal? && st.expr.target.kind == TkIdent
            && st.expr.target.lexeme in nm.locals
            && c == Compiled(TranslateAll(r.steps) + [MovInstr(nm.locals[st.expr.target.lexeme], Result(r))], nm, r.pool, r.next)
            && OkExpr(l.sg, st.expr.value, nm.locals.Keys, n, lim) && Ahead(Table(l, s.fn), nm, r.next)
            && n <= r.next && VariableAt(Table(l, s.fn), nm, st.expr.target.lexeme, n)
  {
    hide WellLinked, Ready, Placed, LowerExpr, TranslateAll, OkExpr, GoodPool, Prepared, Temps, Table;
    ReadyParts(l, s, nm, pool, env, n, lim);
    ExprFacts(l, s, st.expr.value, nm, pool, env, n, lim);
    BlockPrepared(l, s, nm, pool, env, n, lim);
    LowerAssignment(l.sg, nm, st.expr, pool, n, lim);
    var r := LowerExpr(nm, st.expr.value, pool, n);
    var move := Ir.TacMove(nm.locals[st.expr.target.lexeme], r.addr.value);
    TranslateAppend(r.steps, [move]);
    TranslateOne(move);
  }

  lemma {:induction false} SimulateAssign(
    l: Linked, s: M.State, st: Stmt, nm: Names, pool: Pool, env: Env,
    n: nat, lim: nat, inLoop: bool, brk: int, fuel: nat) returns (k: nat)
    requires st.ExprStmt? && st.expr.Assign? && StmtReady(l, s, st, nm, pool, env, n, lim, inLoop, brk)
    ensures StmtSimulated(l, s, k, st, nm, pool, env, n, lim, inLoop, brk, fuel)
    decreases fuel, 1, st, 0
  {
    hide WellLinked, Ready, Placed, LowerExpr, TranslateAll, OkExpr, GoodPool, Advanced, Reaches, Stopped, M.Fetch, Eval, CompileStmt, Ahead, Table;
    AssignLayout(l, s, st, nm, pool, env, n, lim, inLoop, brk);
    var e, x := st.expr.value, st.expr.target.lexeme;
    var r := LowerExpr(nm, e, pool, n);
    var code := TranslateAll(r.steps);
    ValueReady(l, s, e, nm, pool, env, n, lim, code + [MovInstr(nm.locals[x], Result(r))], [MovInstr(nm.locals[x], Result(r))]);
    k := SimulateExpr(l, s, e, nm, pool, env, n, lim, fuel);
    var res := Eval(l.sg.fs, e, env, s.heap, fuel);
    if res.Val? {
      SetStep(l, s, M.Steps(l.code, s, k), k, nm, pool, env, n, lim, |code|, r.next, res.heap, x, Result(r), res.v, r.next);
      k := k + 1;
    }
  }

  /** A definition puts its value into a register that no other name has. */
  lemma AheadDefined(all: map<string, Ir.Addr>, nm: Names, x: string, next: int)
    requires Ahead(all, nm.(locals := nm.locals[x := Ir.TempAt(next)]), next + 1) && x !in nm.locals
    ensures Ahead(all, nm, next) && x in all && all[x] == Ir.TempAt(next)
  {
    var more := nm.locals[x := Ir.TempAt(next)];
    assert x in more && all[x] == more[x];
    forall y | y in nm.locals ensures y in all && all[y] == nm.locals[y] {
      assert y in more && more[y] == nm.locals[y];
    }
    forall y | y in all ensures y in nm.locals || all[y].id >= next {
      assert y in more ==> y in nm.locals || y == x;
    }
  }

  lemma {:induction false} SimulateDef(
    l: Linked, s: M.State, st: Stmt, nm: Names, pool: Pool, env: Env,
    n: nat, lim: nat, inLoop: bool, brk: int, fuel: nat) returns (k: nat)
    requires st.LocalDef? && StmtReady(l, s, st, nm, pool, env, n, lim, inLoop, brk)
    ensures StmtSimulated(l, s, k, st, nm, pool, env, n, lim, inLoop, brk, fuel)
    decreases fuel, 1, st, 0
  {
    hide WellLinked, Ready, Placed, LowerExpr, TranslateAll, OkExpr, GoodPool, Advanced, Reaches, Stopped, M.Fetch, Eval, Ahead, Table;
    var r := LowerExpr(nm, st.init, pool, n);
    AheadDefined(Table(l, s.fn), nm, st.name, r.next);
    var code := TranslateAll(r.steps);
    ValueReady(l, s, st.init, nm, pool, env, n, lim, code + [MovInstr(Ir.TempAt(r.next), Result(r))], [MovInstr(Ir.TempAt(r.next), Result(r))]);
    k := SimulateExpr(l, s, st.init, nm, pool, env, n, lim, fuel);
    var res := Eval(l.sg.fs, st.init, env, s.heap, fuel);
    if res.Val? {
      SetStep(l, s, M.Steps(l.code, s, k), k, nm, pool, env, n, lim, |code|, r.next, res.heap, st.name, Result(r), res.v, r.next + 1);
      k := k + 1;
    }
  }

  lemma ReturnStep(
    l: Linked, s: M.State, t: M.State, k: nat, n: nat, lim: nat, len: int, next: nat, h: Heap, aa: Ir.Addr, v: Value)
    requires t == M.Steps(l.code, s, k) && s.frames != [] && |s.heap| <= |h| && n >= 0
    requires Advanced(s, t, len, n, next, lim, h)
    requires Placed(l.code, s.fn, s.ip + len, [Single(M.Ret, Translate(aa))])
    requires M.Fetch(l.code, t, Translate(aa)) == M.Found(v)
    ensures var u := M.Steps(l.code, s, k + 1);
            ReturnsTo(s, u, v) && u.heap == h
  {
    hide Placed, M.Fetch, M.Step;
    M.StepsSucc(l.code, s, k);
    PlacedOne(l.code, t, Single(M.Ret, Translate(aa)));
  }

  lemma {:induction false} SimulateReturn(
    l: Linked, s: M.State, st: Stmt, nm: Names, pool: Pool, env: Env,
    n: nat, lim: nat, inLoop: bool, brk: int, fuel: nat) returns (k: nat)
    requires st.Return? && StmtReady(l, s, st, nm, pool, env, n, lim, inLoop, brk)
    ensures StmtSimulated(l, s, k, st, nm, pool, env, n, lim, inLoop, brk, fuel)
    decreases fuel, 1, st, 0
  {
    hide WellLinked, Ready, Placed, LowerExpr, TranslateAll, OkExpr, GoodPool, Advanced, ReturnsTo, Stopped, M.Fetch, Eval;
    var r := LowerExpr(nm, st.result, pool, n);
    var code := TranslateAll(r.steps);
    var ret := [Single(M.Ret, Translate(Result(r)))];
    ValueReady(l, s, st.result, nm, pool, env, n, lim, code + ret, ret);
    k := SimulateExpr(l, s, st.result, nm, pool, env, n, lim, fuel);
    var res := Eval(l.sg.fs, st.result, env, s.heap, fuel);
    if res.Val? {
      ReturnStep(l, s, M.Steps(l.code, s, k), k, n, lim, |code|, r.next, res.heap, Result(r), res.v);
      k := k + 1;
    }
  }

  lemma SimulateBreak(
    l: Linked, s: M.State, st: Stmt, nm: Names, pool: Pool, env: Env,
    n: nat, lim: nat, inLoop: bool, brk: int, fuel: nat)
    requires st.Break? && StmtReady(l, s, st, nm, pool, env, n, lim, inLoop, brk)
    ensures StmtSimulated(l, s, 1, st, nm, pool, env, n, lim, inLoop, brk, fuel)
  {
    hide WellLinked, GoodPool, GoodNames, Placed, M.Step;
    JumpStep(l.code, s, 0, s, brk);
  }

  lemma {:induction false} SimulateStmt(
    l: Linked, s: M.State, st: Stmt, nm: Names, pool: Pool, env: Env,
    n: nat, lim: nat, inLoop: bool, brk: int, fuel: nat) returns (k: nat)
    requires StmtReady(l, s, st, nm, pool, env, n, lim, inLoop, brk)
    ensures StmtSimulated(l, s, k, st, nm, pool, env, n, lim, inLoop, brk, fuel)
    decreases fuel, 1, st, 2
  {
    hide *;
    match st
    case ExprStmt(e) =>
      if e.Assign? {
        k := SimulateAssign(l, s, st, nm, pool, env, n, lim, inLoop, brk, fuel);
      } else {
        k := SimulateExprStmt(l, s, st, nm, pool, env, n, lim, inLoop, brk, fuel);
      }
    case LocalDef(_, _) => k := SimulateDef(l, s, st, nm, pool, env, n, lim, inLoop, brk, fuel);
    case Return(_) => k := SimulateReturn(l, s, st, nm, pool, env, n, lim, inLoop, brk, fuel);
    case Break =>
      SimulateBreak(l, s, st, nm, pool, env, n, lim, inLoop, brk, fuel);
      k := 1;
    case If(_, _, _) => k := SimulateIf(l, s, st, nm, pool, env, n, lim, inLoop, brk, fuel);
    case While(_, _) => k := SimulateWhile(l, s, st, nm, pool, env, n, lim, inLoop, brk, fuel);
  }

  /** Pools along an `if` are all part of the final constants. */
  lemma IfConsts(
    l: Linked, s: M.State, st: Stmt, nm: Names, pool: Pool, env: Env,
    n: nat, lim: nat, inLoop: bool, brk: int)
    requires st.If? && StmtReady(l, s, st, nm, pool, env, n, lim, inLoop, brk)
    ensures var r := LowerExpr(nm, st.cond, pool, n);
            var t := CompileStmts(st.thn, nm, r.pool, r.next, s.ip + |TranslateAll(r.steps)| + 1, brk);
            r.pool.consts <= l.code.consts && t.pool.consts <= l.code.consts
  {
    hide WellLinked, Ready, Placed, LowerExpr, TranslateAll, OkExpr, GoodPool, GoodNames, Temps, Extends, ValidAddr, Prepared, OkStmts,
         CompileStmts, Keeps, NewFrom, Ahead, Table;
    BlockPrepared(l, s, nm, pool, env, n, lim);
    CompileThenFacts(l.sg, st, nm, pool, n, lim, inLoop, s.ip, brk);
    var r := LowerExpr(nm, st.cond, pool, n);
    var first := s.ip + |TranslateAll(r.steps)| + 1;
    var t := CompileStmts(st.thn, nm, r.pool, r.next, first, brk);
    if st.els.Else? {
      CompileElseFacts(l.sg, st, nm, pool, n, lim, inLoop, s.ip, brk);
      ExtendsConsts(CompileStmts(st.els.body, t.nm, t.pool, t.next, first + |t.code| + 2, brk).pool, t.pool, l.code.consts);
    }
    ExtendsConsts(t.pool, r.pool, l.code.consts);
  }

  /** At the end of the condition and of the first branch, names still to come have registers
      still to come. */
  lemma IfAhead(
    l: Linked, s: M.State, st: Stmt, nm: Names, pool: Pool, env: Env,
    n: nat, lim: nat, inLoop: bool, brk: int)
    requires st.If? && StmtReady(l, s, st, nm, pool, env, n, lim, inLoop, brk)
    ensures var r := LowerExpr(nm, st.cond, pool, n);
            var t := CompileStmts(st.thn, nm, r.pool, r.next, s.ip + |TranslateAll(r.steps)| + 1, brk);
            Ahead(Table(l, s.fn), nm, r.next) && Ahead(Table(l, s.fn), t.nm, t.next)
  {
    hide WellLinked, Ready, Placed, LowerExpr, TranslateAll, OkExpr, GoodPool, GoodNames, Temps, Extends, ValidAddr, Prepared, OkStmts,
         CompileStmts, Keeps, NewFrom, Ahead, Table;
    BlockPrepared(l, s, nm, pool, env, n, lim);
    CompileThenFacts(l.sg, st, nm, pool, n, lim, inLoop, s.ip, brk);
    var r := LowerExpr(nm, st.cond, pool, n);
    var first := s.ip + |TranslateAll(r.steps)| + 1;
    var t := CompileStmts(st.thn, nm, r.pool, r.next, first, brk);
    if st.els.Else? {
      CompileElseFacts(l.sg, st, nm, pool, n, lim, inLoop, s.ip, brk);
      var f := CompileStmts(st.els.body, t.nm, t.pool, t.next, first + |t.code| + 2, brk);
      AheadBefore(Table(l, s.fn), f.nm, f.next, t.nm, t.next);
    }
    AheadBefore(Table(l, s.fn), t.nm, t.next, nm, r.next);
  }

  lemma IfSplit(
    l: Linked, s: M.State, st: Stmt, nm: Names, pool: Pool, env: Env,
    n: nat, lim: nat, inLoop: bool, brk: int)
    requires st.If? && StmtReady(l, s, st, nm, pool, env, n, lim, inLoop, brk)
    ensures var r := LowerExpr(nm, st.cond, pool, n);
            var check := TranslateAll(r.steps);
            var t := CompileStmts(st.thn, nm, r.pool, r.next, s.ip + |check| + 1, brk);
            var end := s.ip + |check| + 1 + |t.code|;
            && Placed(l.code, s.fn, s.ip, check)
            && Placed(l.code, s.fn, s.ip + |check|, [JumpElseTo(Result(r), if st.els.NoElse? then end else end + 1)])
            && Placed(l.code, s.fn, s.ip + |check| + 1, t.code)
  {
    hide WellLinked, Ready, Placed, LowerExpr, TranslateAll, OkStmt, CompileStmts, Ahead, Table;
    var r := LowerExpr(nm, st.cond, pool, n);
    var check := TranslateAll(r.steps);
    var t := CompileStmts(st.thn, nm, r.pool, r.next, s.ip + |check| + 1, brk);
    var c := CompileStmt(st, nm, pool, n, s.ip, brk);
    var end := s.ip + |check| + 1 + |t.code|;
    var jump := [JumpElseTo(Result(r), if st.els.NoElse? then end else end + 1)];
    var rest := c.code[|check| + 1 + |t.code|..];
    assert c.code == check + (jump + (t.code + rest));
    PlacedSplit(l.code, s.fn, s.ip, check, jump + (t.code + rest));
    PlacedSplit(l.code, s.fn, s.ip + |check|, jump, t.code + rest);
    PlacedSplit(l.code, s.fn, s.ip + |check| + 1, t.code, rest);
  }

  /** The condition and the first branch of an `if`, and where their code lies. */
  lemma IfLayout(
    l: Linked, s: M.State, st: Stmt, nm: Names, pool: Pool, env: Env,
    n: nat, lim: nat, inLoop: bool, brk: int)
    requires st.If? && StmtReady(l, s, st, nm, pool, env, n, lim, inLoop, brk)
    ensures var r := LowerExpr(nm, st.cond, pool, n);
            var len := |TranslateAll(r.steps)|;
            var t := CompileStmts(st.thn, nm, r.pool, r.next, s.ip + len + 1, brk);
            var end := s.ip + len + 1 + |t.code|;
            && ExprReady(l, s, st.cond, nm, pool, env, n, lim) && s.frames != [] && r.addr.Some? && n <= r.next
            && Result(r).tag == Ir.Temp && GoodPool(l.sg.fs, r.pool)
            && OkStmts(l.sg, st.thn, nm.locals.Keys, r.next, lim, inLoop)
            && t.next == r.next + BlockTemps(st.thn) && t.pool.consts <= l.code.consts && Ahead(Table(l, s.fn), t.nm, t.next)
            && Placed(l.code, s.fn, s.ip + len, [JumpElseTo(Result(r), if st.els.NoElse? then end else end + 1)])
            && Placed(l.code, s.fn, s.ip + len + 1, t.code)
  {
    hide WellLinked, Ready, Placed, LowerExpr, TranslateAll, OkExpr, GoodPool, GoodNames, Temps, Extends, ValidAddr, Prepared, OkStmts, Keeps,
         NewFrom, Ahead, Table, CompileStmts, CompileStmt;
    BlockPrepared(l, s, nm, pool, env, n, lim);
    ReadyParts(l, s, nm, pool, env, n, lim);
    IfAhead(l, s, st, nm, pool, env, n, lim, inLoop, brk);
    CompileThenFacts(l.sg, st, nm, pool, n, lim, inLoop, s.ip, brk);
    IfConsts(l, s, st, nm, pool, env, n, lim, inLoop, brk);
    IfSplit(l, s, st, nm, pool, env, n, lim, inLoop, brk);
  }

  /** What follows the first branch when there is no other. */
  lemma IfTail(
    l: Linked, s: M.State, st: Stmt, nm: Names, pool: Pool, env: Env,
    n: nat, lim: nat, inLoop: bool, brk: int)
    requires st.If? && st.els.NoElse? && StmtReady(l, s, st, nm, pool, env, n, lim, inLoop, brk)
    ensures var r := LowerExpr(nm, st.cond, pool, n);
            var len := |TranslateAll(r.steps)|;
            var t := CompileStmts(st.thn, nm, r.pool, r.next, s.ip + len + 1, brk);
            var c := CompileStmt(st, nm, pool, n, s.ip, brk);
            && Placed(l.code, s.fn, s.ip + len + 1 + |t.code|, [NOP])
            && |c.code| == len + 1 + |t.code| + 1 && c.nm == t.nm && c.next == t.next
  {
    hide WellLinked, Ready, Placed, LowerExpr, TranslateAll, OkStmt, CompileStmts, Ahead, Table;
    var c := CompileStmt(st, nm, pool, n, s.ip, brk);
    PlacedSplit(l.code, s.fn, s.ip, c.code[..|c.code| - 1], [NOP]);
  }

  /** The second branch: a jump over it, a `nop` before and after it. */
  lemma ElseLayout(
    l: Linked, s: M.State, st: Stmt, nm: Names, pool: Pool, env: Env,
    n: nat, lim: nat, inLoop: bool, brk: int)
    requires st.If? && st.els.Else? && StmtReady(l, s, st, nm, pool, env, n, lim, inLoop, brk)
    ensures var r := LowerExpr(nm, st.cond, pool, n);
            var len := |TranslateAll(r.steps)|;
            var t := CompileStmts(st.thn, nm, r.pool, r.next, s.ip + len + 1, brk);
            var end := s.ip + len + 1 + |t.code|;
            var f := CompileStmts(st.els.body, t.nm, t.pool, t.next, end + 2, brk);
            var c := CompileStmt(st, nm, pool, n, s.ip, brk);
            && Placed(l.code, s.fn, end, [JumpTo(end + 2 + |f.code|)]) && Placed(l.code, s.fn, end + 1, [NOP])
            && Placed(l.code, s.fn, end + 2, f.code) && Placed(l.code, s.fn, end + 2 + |f.code|, [NOP])
            && s.ip + |c.code| == end + 2 + |f.code| + 1 && c.nm == f.nm && c.next == f.next && f.pool.consts <= l.code.consts
  {
    hide WellLinked, Ready, Placed, LowerExpr, TranslateAll, OkStmt, CompileStmts, Ahead, Table;
    var r := LowerExpr(nm, st.cond, pool, n);
    var check := TranslateAll(r.steps);
    var t := CompileStmts(st.thn, nm, r.pool, r.next, s.ip + |check| + 1, brk);
    var end := s.ip + |check| + 1 + |t.code|;
    var f := CompileStmts(st.els.body, t.nm, t.pool, t.next, end + 2, brk);
    var c := CompileStmt(st, nm, pool, n, s.ip, brk);
    var front := check + [JumpElseTo(Result(r), end + 1)] + t.code;
    var jump := [JumpTo(end + 2 + |f.code|)];
    assert c.code == front + (jump + ([NOP] + (f.code + [NOP])));
    PlacedSplit(l.code, s.fn, s.ip, front, jump + ([NOP] + (f.code + [NOP])));
    PlacedSplit(l.code, s.fn, end, jump, [NOP] + (f.code + [NOP]));
    PlacedSplit(l.code, s.fn, end + 1, [NOP], f.code + [NOP]);
    PlacedSplit(l.code, s.fn, end + 2, f.code, [NOP]);
  }

  /** Names and temporaries when the second branch begins. */
  lemma ElseFacts(
    l: Linked, s: M.State, st: Stmt, nm: Names, pool: Pool, env: Env,
    n: nat, lim: nat, inLoop: bool, brk: int)
    requires st.If? && st.els.Else? && StmtReady(l, s, st, nm, pool, env, n, lim, inLoop, brk)
    ensures var t := ThenPart(st, nm, pool, n, s.ip, brk);
            var f := ElsePart(st, nm, pool, n, s.ip, brk);
            && t.next >= 0 && OkStmts(l.sg, st.els.body, t.nm.locals.Keys, t.next, lim, inLoop)
            && GoodPool(l.sg.fs, t.pool) && GoodNames(l.sg, t.nm, t.next)
            && LowerExpr(nm, st.cond, pool, n).next <= t.next <= f.next
  {
    hide WellLinked, Ready, Placed, LowerExpr, TranslateAll, OkExpr, GoodPool, GoodNames, Temps, Extends, ValidAddr, Prepared, OkStmts,
         CompileStmts, NamesOk, LowersWell, BlockTemps, DefinedIn, OkCondition, Keeps, NewFrom, Ahead, Table;
    BlockPrepared(l, s, nm, pool, env, n, lim);
    CompileThenFacts(l.sg, st, nm, pool, n, lim, inLoop, s.ip, brk);
    CompileElseFacts(l.sg, st, nm, pool, n, lim, inLoop, s.ip, brk);
  }

  /** The condition has been evaluated and the branch taken. */
  lemma Branched(
    l: Linked, s: M.State, k: nat, t: M.State, e: Expr, nm: Names, pool: Pool, env: Env,
    n: nat, lim: nat, fuel: nat, target: int)
    requires ExprReady(l, s, e, nm, pool, env, n, lim) && ExprSimulated(l, s, k, e, nm, pool, env, n, lim, fuel)
    requires Eval(l.sg.fs, e, env, s.heap, fuel).Val? && t == M.Steps(l.code, s, k + 1)
    requires var r := LowerExpr(nm, e, pool, n);
             && Result(r).tag == Ir.Temp && s.frames != [] && n <= r.next && GoodPool(l.sg.fs, r.pool)
             && Placed(l.code, s.fn, s.ip + |TranslateAll(r.steps)|, [JumpElseTo(Result(r), target)])
    ensures var r := LowerExpr(nm, e, pool, n);
            var res := Eval(l.sg.fs, e, env, s.heap, fuel);
            && StaysIn(s, t) && t.heap == res.heap && Ready(l, t, nm, r.pool, env, r.next, lim)
            && t.ip == if Truthy(res.v) then s.ip + |TranslateAll(r.steps)| + 1 else target
  {
    hide WellLinked, Placed, LowerExpr, TranslateAll, OkExpr, GoodPool, GoodNames, Eval, M.Fetch, Translate, M.Steps, Truthy;
    var r := LowerExpr(nm, e, pool, n);
    var len := |TranslateAll(r.steps)|;
    var res := Eval(l.sg.fs, e, env, s.heap, fuel);
    var u := M.Steps(l.code, s, k);
    BranchStep(l.code, s, k, u, Result(r), res.v, target);
    ReadyAfter(l, s, u, nm, pool, r.pool, env, len, n, r.next, lim, res.heap);
    ReadyMoved(l, u, t, nm, r.pool, env, r.next, lim);
  }

  /** Readiness does not depend on the position in the chunk. */
  lemma ReadyMoved(l: Linked, s: M.State, t: M.State, nm: Names, pool: Pool, env: Env, n: int, lim: int)
    requires Ready(l, s, nm, pool, env, n, lim) && t == s.(ip := t.ip)
    ensures Ready(l, t, nm, pool, env, n, lim)
  {
    hide GoodPool, GoodNames;
  }

  /** A later name table of the same function serves as well. */
  lemma ReadyKept(l: Linked, s: M.State, nm: Names, pool: Pool, nm': Names, pool': Pool, env: Env, n: int, n': int, lim: int)
    requires Ready(l, s, nm, pool, env, n, lim) && n <= n'
    requires GoodPool(l.sg.fs, pool') && GoodNames(l.sg, nm', n')
    ensures Ready(l, s, nm', pool', env, n', lim)
  {
    hide GoodPool, GoodNames, Table;
  }

  /** From a block entered in the middle of a statement to the statement's own result. */
  lemma BlockWithin(
    l: Linked, s: M.State, k1: nat, u: M.State, k2: nat, ss: seq<Stmt>, nm1: Names, pool1: Pool, env: Env, n1: nat,
    lim: nat, inLoop: bool, brk: int, fuel: nat, next': int)
    requires u == M.Steps(l.code, s, k1) && StaysIn(s, u)
    requires BlockSimulated(l, u, k2, ss, nm1, pool1, env, n1, lim, inLoop, brk, fuel)
    requires CompileStmts(ss, nm1, pool1, n1, u.ip, brk).next <= next'
    ensures var c := CompileStmts(ss, nm1, pool1, n1, u.ip, brk);
            CodeDone(l, s, k1 + k2, fuel, Exec(l.sg.fs, ss, env, u.heap, fuel), u.ip + |c.code|, next', brk, lim, inLoop)
  {
    hide CompileStmts, CodeDone, Exec, M.Steps;
    var c := CompileStmts(ss, nm1, pool1, n1, u.ip, brk);
    var res := Exec(l.sg.fs, ss, env, u.heap, fuel);
    Lift(l, s, k1, k2, fuel, res, u.ip + |c.code|, c.next, brk, lim, inLoop);
    Weaken(l, s, k1 + k2, fuel, res, u.ip + |c.code|, c.next, brk, lim, inLoop, next');
  }

  /** The first branch is ready to run. */
  lemma ThenReady(
    l: Linked, s: M.State, k: nat, st: Stmt, nm: Names, pool: Pool, env: Env,
    n: nat, lim: nat, inLoop: bool, brk: int, fuel: nat)
    requires st.If? && StmtReady(l, s, st, nm, pool, env, n, lim, inLoop, brk)
    requires Eval(l.sg.fs, st.cond, env, s.heap, fuel).Val? && Truthy(Eval(l.sg.fs, st.cond, env, s.heap, fuel).v)
    requires ExprReady(l, s, st.cond, nm, pool, env, n, lim) && ExprSimulated(l, s, k, st.cond, nm, pool, env, n, lim, fuel)
    ensures var r := LowerExpr(nm, st.cond, pool, n);
            var u := M.Steps(l.code, s, k + 1);
            && r.next >= 0 && StaysIn(s, u) && u.heap == Eval(l.sg.fs, st.cond, env, s.heap, fuel).heap
            && u.ip == s.ip + |TranslateAll(r.steps)| + 1
            && BlockReady(l, u, st.thn, nm, r.pool, env, r.next, lim, inLoop, brk)
  {
    hide Ready, Placed, LowerExpr, TranslateAll, GoodPool, CompileStmts, CompileStmt, OkStmts, Keeps, M.Steps, WellLinked, ExprReady, ExprSimulated, OkStmt, Truthy;
    IfLayout(l, s, st, nm, pool, env, n, lim, inLoop, brk);
    var r := LowerExpr(nm, st.cond, pool, n);
    var end := s.ip + |TranslateAll(r.steps)| + 1 + |CompileStmts(st.thn, nm, r.pool, r.next, s.ip + |TranslateAll(r.steps)| + 1, brk).code|;
    Branched(l, s, k, M.Steps(l.code, s, k + 1), st.cond, nm, pool, env, n, lim, fuel, if st.els.NoElse? then end else end + 1);
  }

  /** The first branch has run; what is left of the statement's code follows. */
  lemma ThenFinish(
    l: Linked, s: M.State, k1: nat, k2: nat, st: Stmt, nm: Names, pool: Pool, env: Env,
    n: nat, lim: nat, inLoop: bool, brk: int, fuel: nat) returns (k: nat)
    requires st.If? && StmtReady(l, s, st, nm, pool, env, n, lim, inLoop, brk)
    requires Eval(l.sg.fs, st.cond, env, s.heap, fuel).Val? && Truthy(Eval(l.sg.fs, st.cond, env, s.heap, fuel).v)
    requires var r := LowerExpr(nm, st.cond, pool, n);
             var u := M.Steps(l.code, s, k1);
             && r.next >= 0 && StaysIn(s, u) && u.heap == Eval(l.sg.fs, st.cond, env, s.heap, fuel).heap
             && u.ip == s.ip + |TranslateAll(r.steps)| + 1
             && BlockSimulated(l, u, k2, st.thn, nm, r.pool, env, r.next, lim, inLoop, brk, fuel)
    ensures StmtSimulated(l, s, k, st, nm, pool, env, n, lim, inLoop, brk, fuel)
  {
    hide Ready, Placed, LowerExpr, TranslateAll, GoodPool, CompileStmts, CompileStmt, OkStmts, M.Steps, WellLinked, ExprReady, OkStmt,
         Truthy, CodeDone, Eval, Exec, BlockSimulated, Keeps, StaysIn;
    IfLayout(l, s, st, nm, pool, env, n, lim, inLoop, brk);
    assert s.frames != [] by { ReadyParts(l, s, nm, pool, env, n, lim); }
    var r := LowerExpr(nm, st.cond, pool, n);
    var u := M.Steps(l.code, s, k1);
    var first := s.ip + |TranslateAll(r.steps)| + 1;
    var t := CompileStmts(st.thn, nm, r.pool, r.next, first, brk);
    var end := first + |t.code|;
    var res := Exec(l.sg.fs, st.thn, env, u.heap, fuel);
    var c := CompileStmt(st, nm, pool, n, s.ip, brk);
    if st.els.NoElse? {
      IfTail(l, s, st, nm, pool, env, n, lim, inLoop, brk);
      BlockWithin(l, s, k1, u, k2, st.thn, nm, r.pool, env, r.next, lim, inLoop, brk, fuel, c.next);
      k := ThenNop(l, s, k1 + k2, fuel, res, end, c.next, brk, lim, inLoop);
    } else {
      ElseLayout(l, s, st, nm, pool, env, n, lim, inLoop, brk);
      ElseFacts(l, s, st, nm, pool, env, n, lim, inLoop, brk);
      var f := CompileStmts(st.els.body, t.nm, t.pool, t.next, end + 2, brk);
      BlockWithin(l, s, k1, u, k2, st.thn, nm, r.pool, env, r.next, lim, inLoop, brk, fuel, c.next);
      k := ThenJump(l, s, k1 + k2, fuel, res, end, end + 2 + |f.code|, c.next, brk, lim, inLoop);
      k := ThenNop(l, s, k, fuel, res, end + 2 + |f.code|, c.next, brk, lim, inLoop);
    }
  }

  /** The second branch is ready to run. */
  lemma ElseReady(
    l: Linked, s: M.State, k: nat, st: Stmt, nm: Names, pool: Pool, env: Env,
    n: nat, lim: nat, inLoop: bool, brk: int, fuel: nat)
    requires st.If? && st.els.Else? && StmtReady(l, s, st, nm, pool, env, n, lim, inLoop, brk)
    requires Eval(l.sg.fs, st.cond, env, s.heap, fuel).Val? && !Truthy(Eval(l.sg.fs, st.cond, env, s.heap, fuel).v)
    requires ExprReady(l, s, st.cond, nm, pool, env, n, lim) && ExprSimulated(l, s, k, st.cond, nm, pool, env, n, lim, fuel)
    ensures var t := ThenPart(st, nm, pool, n, s.ip, brk);
            var u := M.Steps(l.code, s, k + 2);
            && t.next >= 0 && StaysIn(s, u) && u.heap == Eval(l.sg.fs, st.cond, env, s.heap, fuel).heap
            && u.ip == ThenEnd(st, nm, pool, n, s.ip, brk) + 2
            && BlockReady(l, u, st.els.body, t.nm, t.pool, env, t.next, lim, inLoop, brk)
  {
    hide Ready, Placed, LowerExpr, TranslateAll, GoodPool, GoodNames, CompileStmts, CompileStmt, OkStmts, Keeps, M.Steps, WellLinked, ExprReady,
         ExprSimulated, OkStmt, Truthy;
    IfLayout(l, s, st, nm, pool, env, n, lim, inLoop, brk);
    ElseLayout(l, s, st, nm, pool, env, n, lim, inLoop, brk);
    ElseFacts(l, s, st, nm, pool, env, n, lim, inLoop, brk);
    var r := LowerExpr(nm, st.cond, pool, n);
    var t := CompileStmts(st.thn, nm, r.pool, r.next, s.ip + |TranslateAll(r.steps)| + 1, brk);
    var end := s.ip + |TranslateAll(r.steps)| + 1 + |t.code|;
    var u := M.Steps(l.code, s, k + 1);
    Branched(l, s, k, u, st.cond, nm, pool, env, n, lim, fuel, end + 1);
    NopStep(l.code, s, k + 1, u);
    ReadyMoved(l, u, M.Steps(l.code, s, k + 2), nm, r.pool, env, r.next, lim);
    ReadyKept(l, M.Steps(l.code, s, k + 2), nm, r.pool, t.nm, t.pool, env, r.next, t.next, lim);
  }

  lemma ElseFinish(
    l: Linked, s: M.State, k1: nat, k2: nat, st: Stmt, nm: Names, pool: Pool, env: Env,
    n: nat, lim: nat, inLoop: bool, brk: int, fuel: nat) returns (k: nat)
    requires st.If? && st.els.Else? && Eval(l.sg.fs, st.cond, env, s.heap, fuel).Val?
    requires !Truthy(Eval(l.sg.fs, st.cond, env, s.heap, fuel).v)
    requires var t := ThenPart(st, nm, pool, n, s.ip, brk);
             var u := M.Steps(l.code, s, k1);
             && t.next >= 0 && StaysIn(s, u) && u.heap == Eval(l.sg.fs, st.cond, env, s.heap, fuel).heap
             && u.ip == ThenEnd(st, nm, pool, n, s.ip, brk) + 2
             && BlockSimulated(l, u, k2, st.els.body, t.nm, t.pool, env, t.next, lim, inLoop, brk, fuel)
    requires StmtReady(l, s, st, nm, pool, env, n, lim, inLoop, brk)
    ensures StmtSimulated(l, s, k, st, nm, pool, env, n, lim, inLoop, brk, fuel)
  {
    hide Ready, Placed, LowerExpr, TranslateAll, GoodPool, CompileStmts, CompileStmt, OkStmts, M.Steps, WellLinked, ExprReady, OkStmt,
         Truthy, CodeDone, Eval, Exec, BlockSimulated, StaysIn;
    ElseLayout(l, s, st, nm, pool, env, n, lim, inLoop, brk);
    ElseFacts(l, s, st, nm, pool, env, n, lim, inLoop, brk);
    assert s.frames != [] by { ReadyParts(l, s, nm, pool, env, n, lim); }
    var r := LowerExpr(nm, st.cond, pool, n);
    var u := M.Steps(l.code, s, k1);
    var first := s.ip + |TranslateAll(r.steps)| + 1;
    var t := CompileStmts(st.thn, nm, r.pool, r.next, first, brk);
    var f := CompileStmts(st.els.body, t.nm, t.pool, t.next, first + |t.code| + 2, brk);
    var res := Exec(l.sg.fs, st.els.body, env, u.heap, fuel);
    BlockWithin(l, s, k1, u, k2, st.els.body, t.nm, t.pool, env, t.next, lim, inLoop, brk, fuel, f.next);
    k := ThenNop(l, s, k1 + k2, fuel, res, u.ip + |f.code|, f.next, brk, lim, inLoop);
  }

  /** The condition is false and there is no second branch. */
  lemma IfSkipped(
    l: Linked, s: M.State, k1: nat, st: Stmt, nm: Names, pool: Pool, env: Env,
    n: nat, lim: nat, inLoop: bool, brk: int, fuel: nat) returns (k: nat)
    requires st.If? && st.els.NoElse? && StmtReady(l, s, st, nm, pool, env, n, lim, inLoop, brk)
    requires Eval(l.sg.fs, st.cond, env, s.heap, fuel).Val? && !Truthy(Eval(l.sg.fs, st.cond, env, s.heap, fuel).v)
    requires ExprReady(l, s, st.cond, nm, pool, env, n, lim) && ExprSimulated(l, s, k1, st.cond, nm, pool, env, n, lim, fuel)
    ensures StmtSimulated(l, s, k, st, nm, pool, env, n, lim, inLoop, brk, fuel)
  {
    hide Placed, LowerExpr, TranslateAll, GoodPool, GoodNames, CompileStmts, CompileStmt, OkStmts, M.Steps, WellLinked, ExprReady, OkStmt,
         Truthy, Eval, Exec, ExprSimulated;
    IfLayout(l, s, st, nm, pool, env, n, lim, inLoop, brk);
    IfTail(l, s, st, nm, pool, env, n, lim, inLoop, brk);
    var r := LowerExpr(nm, st.cond, pool, n);
    var first := s.ip + |TranslateAll(r.steps)| + 1;
    var t := CompileStmts(st.thn, nm, r.pool, r.next, first, brk);
    var c := CompileStmt(st, nm, pool, n, s.ip, brk);
    var end := first + |t.code|;
    Branched(l, s, k1, M.Steps(l.code, s, k1 + 1), st.cond, nm, pool, env, n, lim, fuel, end);
    var res := Next(env, Eval(l.sg.fs, st.cond, env, s.heap, fuel).heap);
    assert CodeDone(l, s, k1 + 1, fuel, res, end, r.next, brk, lim, inLoop);
    Weaken(l, s, k1 + 1, fuel, res, end, r.next, brk, lim, inLoop, c.next);
    k := ThenNop(l, s, k1 + 1, fuel, res, end, c.next, brk, lim, inLoop);
  }

  lemma IfStops(
    l: Linked, s: M.State, k: nat, st: Stmt, nm: Names, pool: Pool, env: Env, n: nat, lim: nat, inLoop: bool, brk: int, fuel: nat)
    requires st.If? && Eval(l.sg.fs, st.cond, env, s.heap, fuel).Stops?
    requires ExprSimulated(l, s, k, st.cond, nm, pool, env, n, lim, fuel)
    ensures StmtSimulated(l, s, k, st, nm, pool, env, n, lim, inLoop, brk, fuel)
  {
    hide LowerExpr, CompileStmt, Stopped, Eval, TranslateAll;
  }

  lemma {:induction false} SimulateIf(
    l: Linked, s: M.State, st: Stmt, nm: Names, pool: Pool, env: Env,
    n: nat, lim: nat, inLoop: bool, brk: int, fuel: nat) returns (k: nat)
    requires st.If? && StmtReady(l, s, st, nm, pool, env, n, lim, inLoop, brk)
    ensures StmtSimulated(l, s, k, st, nm, pool, env, n, lim, inLoop, brk, fuel)
    decreases fuel, 1, st, 1
  {
    hide *;
    IfLayout(l, s, st, nm, pool, env, n, lim, inLoop, brk);
    k := SimulateExpr(l, s, st.cond, nm, pool, env, n, lim, fuel);
    var res := Eval(l.sg.fs, st.cond, env, s.heap, fuel);
    var r := LowerExpr(nm, st.cond, pool, n);
    if res.Stops? {
      IfStops(l, s, k, st, nm, pool, env, n, lim, inLoop, brk, fuel);
    } else if Truthy(res.v) {
      ThenReady(l, s, k, st, nm, pool, env, n, lim, inLoop, brk, fuel);
      var k2 := SimulateStmts(l, M.Steps(l.code, s, k + 1), st.thn, nm, r.pool, env, r.next, lim, inLoop, brk, fuel);
      k := ThenFinish(l, s, k + 1, k2, st, nm, pool, env, n, lim, inLoop, brk, fuel);
    } else if st.els.Else? {
      ElseReady(l, s, k, st, nm, pool, env, n, lim, inLoop, brk, fuel);
      var t := ThenPart(st, nm, pool, n, s.ip, brk);
      var k2 := SimulateStmts(l, M.Steps(l.code, s, k + 2), st.els.body, t.nm, t.pool, env,
                              t.next, lim, inLoop, brk, fuel);
      k := ElseFinish(l, s, k + 2, k2, st, nm, pool, env, n, lim, inLoop, brk, fuel);
    } else {
      k := IfSkipped(l, s, k, st, nm, pool, env, n, lim, inLoop, brk, fuel);
    }
  }

  /** At the head of a loop: `high` bounds the temporaries of the outermost loop. */
  ghost predicate LoopReady(
    l: Linked, s: M.State, st: Stmt, nm: Names, pool: Pool, env: Env, n: nat, high: nat, brk: int)
  {
    && st.While?
    && var c := CompileStmt(st, nm, pool, n, s.ip, brk);
    && WellLinked(l) && Ready(l, s, nm, pool, env, n, high)
    && OkCondition(l.sg, st.check, nm.locals.Keys, n, high) && OkStmts(l.sg, st.body, nm.locals.Keys, n + Temps(st.check), high, true)
    && Placed(l.code, s.fn, s.ip, c.code) && c.pool.consts <= l.code.consts && Ahead(Table(l, s.fn), c.nm, c.next)
  }

  ghost predicate LoopSimulated(
    l: Linked, s: M.State, k: nat, st: Stmt, nm: Names, pool: Pool, env: Env, n: nat, high: nat, inLoop: bool, brk: int, fuel: nat)
  {
    var c := CompileStmt(st, nm, pool, n, s.ip, brk);
    CodeDone(l, s, k, fuel, ExecStmt(l.sg.fs, st, env, s.heap, fuel),
             s.ip + |c.code|, c.next, brk, high, inLoop)
  }

  /** The body of a loop that starts at `base`, and the index of its exit `nop`. */
  function BodyPart(st: Stmt, nm: Names, pool: Pool, n: int, base: int): Compiled
    requires st.While?
  {
    var r := LowerExpr(nm, st.check, pool, n);
    CompileStmts(st.body, nm, r.pool, r.next, base + 1 + |TranslateAll(r.steps)| + 1, LoopExit(st, nm, pool, n, base))
  }

  function LoopExit(st: Stmt, nm: Names, pool: Pool, n: int, base: int): int
    requires st.While?
  {
    var r := LowerExpr(nm, st.check, pool, n);
    var first := base + 1 + |TranslateAll(r.steps)| + 1;
    first + |CompileStmts(st.body, nm, r.pool, r.next, first, 0).code| + 1
  }

  lemma LoopShape(st: Stmt, nm: Names, pool: Pool, n: int, base: int, brk: int)
    requires st.While?
    ensures var r := LowerExpr(nm, st.check, pool, n);
            var check := TranslateAll(r.steps);
            var b := BodyPart(st, nm, pool, n, base);
            var exit := LoopExit(st, nm, pool, n, base);
            && CompileStmt(st, nm, pool, n, base, brk) ==
                 b.(code := [NOP] + check + [JumpElseTo(Result(r), exit)] + b.code + [JumpTo(base), NOP])
            && exit == base + 1 + |check| + 1 + |b.code| + 1
  {
    hide LowerExpr, TranslateAll;
    var r := LowerExpr(nm, st.check, pool, n);
    var first := base + 1 + |TranslateAll(r.steps)| + 1;
    StmtsShape(st.body, nm, r.pool, r.next, first, 0, first, LoopExit(st, nm, pool, n, base));
  }

  /** Where the pieces of a loop lie. */
  lemma LoopLayout(
    l: Linked, s: M.State, st: Stmt, nm: Names, pool: Pool, env: Env, n: nat, high: nat, brk: int)
    requires LoopReady(l, s, st, nm, pool, env, n, high, brk)
    ensures var r := LowerExpr(nm, st.check, pool, n);
            var check := TranslateAll(r.steps);
            var b := BodyPart(st, nm, pool, n, s.ip);
            var exit := LoopExit(st, nm, pool, n, s.ip);
            var c := CompileStmt(st, nm, pool, n, s.ip, brk);
            && Placed(l.code, s.fn, s.ip, [NOP]) && Placed(l.code, s.fn, s.ip + 1, check)
            && Placed(l.code, s.fn, s.ip + 1 + |check|, [JumpElseTo(Result(r), exit)])
            && Placed(l.code, s.fn, s.ip + 1 + |check| + 1, b.code)
            && Placed(l.code, s.fn, exit - 1, [JumpTo(s.ip)]) && Placed(l.code, s.fn, exit, [NOP])
            && exit == s.ip + 1 + |check| + 1 + |b.code| + 1 && s.ip + |c.code| == exit + 1
            && c.nm == b.nm && c.next == b.next && c.pool == b.pool
  {
    hide WellLinked, Ready, Placed, LowerExpr, TranslateAll, CompileStmts, CompileStmt, OkCondition, OkStmts, Temps;
    LoopShape(st, nm, pool, n, s.ip, brk);
    hide BodyPart, LoopExit;
    var r := LowerExpr(nm, st.check, pool, n);
    var check := TranslateAll(r.steps);
    var b := BodyPart(st, nm, pool, n, s.ip);
    var exit := LoopExit(st, nm, pool, n, s.ip);
    var jump := [JumpElseTo(Result(r), exit)];
    var tail := [JumpTo(s.ip)] + [NOP];
    assert CompileStmt(st, nm, pool, n, s.ip, brk).code == [NOP] + (check + (jump + (b.code + tail)));
    PlacedSplit(l.code, s.fn, s.ip, [NOP], check + (jump + (b.code + tail)));
    PlacedSplit(l.code, s.fn, s.ip + 1, check, jump + (b.code + tail));
    PlacedSplit(l.code, s.fn, s.ip + 1 + |check|, jump, b.code + tail);
    PlacedSplit(l.code, s.fn, s.ip + 1 + |check| + 1, b.code, tail);
    PlacedSplit(l.code, s.fn, exit - 1, [JumpTo(s.ip)], [NOP]);
  }

  /** Names, constants and temporaries of a loop. */
  lemma LoopFacts(
    l: Linked, s: M.State, st: Stmt, nm: Names, pool: Pool, env: Env, n: nat, high: nat, brk: int)
    requires LoopReady(l, s, st, nm, pool, env, n, high, brk)
    ensures var r := LowerExpr(nm, st.check, pool, n);
            var b := BodyPart(st, nm, pool, n, s.ip);
            && r.addr.Some? && Result(r).tag == Ir.Temp && r.next == n + Temps(st.check) && r.next <= b.next
            && GoodPool(l.sg.fs, r.pool) && r.pool.consts <= l.code.consts
            && Ahead(Table(l, s.fn), nm, r.next) && Ahead(Table(l, s.fn), b.nm, b.next)
  {
    hide Placed, LowerExpr, TranslateAll, CompileStmts, CompileStmt, OkExpr, OkStmts, Temps, GoodPool, GoodNames, WellLinked, Ready, Keeps,
         NewFrom, Ahead, Table, Extends, ValidAddr, LoopExit, Prepared;
    LoopLayout(l, s, st, nm, pool, env, n, high, brk);
    BlockPrepared(l, s, nm, pool, env, n, high);
    PrepareNext(l.sg, st.check, nm, pool, n, high);
    var r := LowerExpr(nm, st.check, pool, n);
    CompileStmtsFacts(l.sg, st.body, nm, r.pool, r.next, high, true,
                      s.ip + 1 + |TranslateAll(r.steps)| + 1, LoopExit(st, nm, pool, n, s.ip));
    var b := BodyPart(st, nm, pool, n, s.ip);
    ExtendsConsts(b.pool, r.pool, l.code.consts);
    AheadBefore(Table(l, s.fn), b.nm, b.next, nm, r.next);
  }

  /** One round in: the check is ready to run. */
  lemma CheckReady(
    l: Linked, s: M.State, st: Stmt, nm: Names, pool: Pool, env: Env, n: nat, high: nat, brk: int)
    requires LoopReady(l, s, st, nm, pool, env, n, high, brk)
    ensures var u := M.Steps(l.code, s, 1);
            && u == s.(ip := s.ip + 1) && s.frames != [] && StaysIn(s, u)
            && ExprReady(l, u, st.check, nm, pool, env, n, high)
  {
    hide Placed, LowerExpr, TranslateAll, CompileStmts, CompileStmt, OkExpr, OkStmts, GoodPool, GoodNames, WellLinked, Ready, BodyPart,
         LoopExit, M.Steps, Keeps;
    ReadyParts(l, s, nm, pool, env, n, high);
    LoopLayout(l, s, st, nm, pool, env, n, high, brk);
    LoopFacts(l, s, st, nm, pool, env, n, high, brk);
    M.StepsNone(l.code, s);
    NopStep(l.code, s, 0, s);
    ReadyMoved(l, s, M.Steps(l.code, s, 1), nm, pool, env, n, high);
  }

  /** The check has been evaluated: at the body if it holds, at the exit otherwise. */
  lemma Checked(
    l: Linked, s: M.State, k: nat, st: Stmt, nm: Names, pool: Pool, env: Env, n: nat, high: nat, brk: int, fuel: nat)
    requires LoopReady(l, s, st, nm, pool, env, n, high, brk)
    requires var u := M.Steps(l.code, s, 1);
             && u == s.(ip := s.ip + 1) && ExprReady(l, u, st.check, nm, pool, env, n, high)
             && Eval(l.sg.fs, st.check, env, s.heap, fuel).Val? && ExprSimulated(l, u, k, st.check, nm, pool, env, n, high, fuel)
    ensures var r := LowerExpr(nm, st.check, pool, n);
            var res := Eval(l.sg.fs, st.check, env, s.heap, fuel);
            var t := M.Steps(l.code, s, k + 2);
            && StaysIn(s, t) && t.heap == res.heap && Ready(l, t, nm, r.pool, env, r.next, high)
            && t.ip == if Truthy(res.v) then s.ip + 1 + |TranslateAll(r.steps)| + 1 else LoopExit(st, nm, pool, n, s.ip)
  {
    hide Placed, LowerExpr, TranslateAll, CompileStmts, CompileStmt, OkExpr, OkStmts, GoodPool, GoodNames, WellLinked, Ready, BodyPart,
         LoopExit, M.Steps, ExprReady, ExprSimulated, Truthy, Eval, Temps, Keeps;
    LoopLayout(l, s, st, nm, pool, env, n, high, brk);
    LoopFacts(l, s, st, nm, pool, env, n, high, brk);
    assert s.frames != [] by { ReadyParts(l, s, nm, pool, env, n, high); }
    var u := M.Steps(l.code, s, 1);
    M.StepsAdd(l.code, s, 1, k + 1);
    Branched(l, u, k, M.Steps(l.code, u, k + 1), st.check, nm, pool, env, n, high, fuel, LoopExit(st, nm, pool, n, s.ip));
  }

  lemma BodyReady(
    l: Linked, s: M.State, t: M.State, st: Stmt, nm: Names, pool: Pool, env: Env, n: nat, high: nat, brk: int)
    requires LoopReady(l, s, st, nm, pool, env, n, high, brk) && StaysIn(s, t)
    requires var r := LowerExpr(nm, st.check, pool, n);
             Ready(l, t, nm, r.pool, env, r.next, high) && t.ip == s.ip + 1 + |TranslateAll(r.steps)| + 1
    ensures var r := LowerExpr(nm, st.check, pool, n);
            && r.next >= 0
            && BlockReady(l, t, st.body, nm, r.pool, env, r.next, high, true, LoopExit(st, nm, pool, n, s.ip))
  {
    hide Placed, LowerExpr, TranslateAll, CompileStmts, CompileStmt, OkExpr, OkStmts, GoodPool, GoodNames, WellLinked, Ready,
         LoopExit, Temps, Keeps;
    LoopLayout(l, s, st, nm, pool, env, n, high, brk);
    LoopFacts(l, s, st, nm, pool, env, n, high, brk);
  }

  /** The check does not hold. */
  lemma LoopSkipped(
    l: Linked, s: M.State, k: nat, t: M.State, st: Stmt, nm: Names, pool: Pool, env: Env,
    n: nat, high: nat, inLoop: bool, brk: int, fuel: nat) returns (k': nat)
    requires LoopReady(l, s, st, nm, pool, env, n, high, brk) && fuel > 0
    requires Eval(l.sg.fs, st.check, env, s.heap, fuel).Val? && !Truthy(Eval(l.sg.fs, st.check, env, s.heap, fuel).v)
    requires var r := LowerExpr(nm, st.check, pool, n);
             && t == M.Steps(l.code, s, k) && StaysIn(s, t) && t.heap == Eval(l.sg.fs, st.check, env, s.heap, fuel).heap
             && Ready(l, t, nm, r.pool, env, r.next, high) && t.ip == LoopExit(st, nm, pool, n, s.ip)
    ensures LoopSimulated(l, s, k', st, nm, pool, env, n, high, inLoop, brk, fuel)
  {
    hide Placed, LowerExpr, TranslateAll, CompileStmts, CompileStmt, OkExpr, OkStmts, GoodPool, GoodNames, WellLinked, BodyPart,
         LoopExit, M.Steps, Truthy, Eval, Exec, Temps;
    LoopLayout(l, s, st, nm, pool, env, n, high, brk);
    LoopFacts(l, s, st, nm, pool, env, n, high, brk);
    ReadyParts(l, s, nm, pool, env, n, high);
    var r := LowerExpr(nm, st.check, pool, n);
    var exit := LoopExit(st, nm, pool, n, s.ip);
    var c := CompileStmt(st, nm, pool, n, s.ip, brk);
    var res := Next(env, t.heap);
    assert CodeDone(l, s, k, fuel, res, exit, r.next, brk, high, inLoop);
    Weaken(l, s, k, fuel, res, exit, r.next, brk, high, inLoop, c.next);
    k' := ThenNop(l, s, k, fuel, res, exit, c.next, brk, high, inLoop);
  }

  lemma LoopStops(
    l: Linked, s: M.State, k: nat, st: Stmt, nm: Names, pool: Pool, env: Env, n: nat, high: nat, inLoop: bool, brk: int, fuel: nat)
    requires st.While? && fuel > 0 && M.Steps(l.code, s, 1) == s.(ip := s.ip + 1)
    requires Eval(l.sg.fs, st.check, env, s.heap, fuel).Stops?
    requires ExprSimulated(l, M.Steps(l.code, s, 1), k, st.check, nm, pool, env, n, high, fuel)
    ensures LoopSimulated(l, s, 1 + k, st, nm, pool, env, n, high, inLoop, brk, fuel)
  {
    hide LowerExpr, CompileStmt, Stopped, Eval, TranslateAll, M.Steps;
    StoppedLater(l.code, s, 1, k, fuel, Eval(l.sg.fs, st.check, env, s.heap, fuel).why);
  }

  /** The body has run: on to the next round, out of the loop, or out of the function. */
  lemma BodyFinish(
    l: Linked, s: M.State, k1: nat, k2: nat, st: Stmt, nm: Names, pool: Pool, env: Env,
    n: nat, high: nat, brk: int, fuel: nat)
    requires LoopReady(l, s, st, nm, pool, env, n, high, brk)
    requires var r := LowerExpr(nm, st.check, pool, n);
             var u := M.Steps(l.code, s, k1);
             && r.next >= 0 && StaysIn(s, u) && u.ip == s.ip + 1 + |TranslateAll(r.steps)| + 1
             && BlockSimulated(l, u, k2, st.body, nm, r.pool, env, r.next, high, true, LoopExit(st, nm, pool, n, s.ip), fuel)
    ensures var exit := LoopExit(st, nm, pool, n, s.ip);
            var b := BodyPart(st, nm, pool, n, s.ip);
            CodeDone(l, s, k1 + k2, fuel, Exec(l.sg.fs, st.body, env, M.Steps(l.code, s, k1).heap, fuel),
                     exit - 1, b.next, exit, high, true)
  {
    hide Placed, LowerExpr, TranslateAll, CompileStmts, CompileStmt, OkExpr, OkStmts, GoodPool, GoodNames, WellLinked,
         LoopExit, M.Steps, Exec, Temps, Ready, Keeps, CodeDone, BlockSimulated, StaysIn;
    LoopLayout(l, s, st, nm, pool, env, n, high, brk);
    LoopFacts(l, s, st, nm, pool, env, n, high, brk);
    var r := LowerExpr(nm, st.check, pool, n);
    var b := BodyPart(st, nm, pool, n, s.ip);
    BlockWithin(l, s, k1, M.Steps(l.code, s, k1), k2, st.body, nm, r.pool, env, r.next, high, true, LoopExit(st, nm, pool, n, s.ip), fuel,
                b.next);
  }

  lemma KeepsRefl(nm: Names)
    ensures Keeps(nm, nm)
  {
  }

  /** The body fell through: the jump back leads to the loop head in the new environment. */
  lemma RoundDone(
    l: Linked, s: M.State, k: nat, st: Stmt, nm: Names, pool: Pool, env: Env,
    n: nat, high: nat, brk: int, fuel: nat, env': Env, h': Heap)
    requires LoopReady(l, s, st, nm, pool, env, n, high, brk) && high >= BodyPart(st, nm, pool, n, s.ip).next
    requires var exit := LoopExit(st, nm, pool, n, s.ip);
             var b := BodyPart(st, nm, pool, n, s.ip);
             CodeDone(l, s, k, fuel, Next(env', h'), exit - 1, b.next, exit, high, true)
    ensures var u := M.Steps(l.code, s, k + 1);
            && StaysIn(s, u) && u.ip == s.ip && u.heap == h'
            && LoopReady(l, u, st, nm, pool, env', n, high, brk)
  {
    hide Placed, LowerExpr, TranslateAll, CompileStmts, CompileStmt, OkExpr, OkStmts, GoodPool, GoodNames, WellLinked, BodyPart,
         LoopExit, M.Steps, Temps;
    LoopLayout(l, s, st, nm, pool, env, n, high, brk);
    ReadyParts(l, s, nm, pool, env, n, high);
    var t := M.Steps(l.code, s, k);
    JumpStep(l.code, s, k, t, s.ip);
  }

  lemma LoopAgain(
    l: Linked, s: M.State, k1: nat, k2: nat, st: Stmt, nm: Names, pool: Pool, env: Env, n: nat, high: nat,
    inLoop: bool, brk: int, fuel: nat, env': Env)
    requires st.While? && fuel > 0 && k1 > 0
    requires var u := M.Steps(l.code, s, k1);
             && StaysIn(s, u) && u.ip == s.ip
             && LoopSimulated(l, u, k2, st, nm, pool, env', n, high, inLoop, brk, fuel - 1)
             && ExecStmt(l.sg.fs, st, env, s.heap, fuel) == ExecStmt(l.sg.fs, st, env', u.heap, fuel - 1)
    ensures LoopSimulated(l, s, k1 + k2, st, nm, pool, env, n, high, inLoop, brk, fuel)
  {
    hide CompileStmt, CodeDone, M.Steps, ExecStmt, StaysIn;
    var u := M.Steps(l.code, s, k1);
    var c := CompileStmt(st, nm, pool, n, s.ip, brk);
    Lift(l, s, k1, k2, fuel - 1, ExecStmt(l.sg.fs, st, env', u.heap, fuel - 1),
         s.ip + |c.code|, c.next, brk, high, inLoop);
  }

  /** The body left the loop, by `break` or by ending the function or the run. */
  lemma LoopLeft(
    l: Linked, s: M.State, k: nat, st: Stmt, nm: Names, pool: Pool, env: Env,
    n: nat, high: nat, inLoop: bool, brk: int, fuel: nat, res: ExecResult) returns (k': nat)
    requires LoopReady(l, s, st, nm, pool, env, n, high, brk) && fuel > 0 && !res.Next?
    requires var exit := LoopExit(st, nm, pool, n, s.ip);
             var b := BodyPart(st, nm, pool, n, s.ip);
             CodeDone(l, s, k, fuel, res, exit - 1, b.next, exit, high, true)
    requires ExecStmt(l.sg.fs, st, env, s.heap, fuel) == if res.Broke? then Next(res.env, res.heap) else res
    ensures LoopSimulated(l, s, k', st, nm, pool, env, n, high, inLoop, brk, fuel)
  {
    hide Placed, LowerExpr, TranslateAll, CompileStmts, CompileStmt, OkExpr, OkStmts, GoodPool, GoodNames, WellLinked, BodyPart,
         LoopExit, M.Steps, ExecStmt, Temps, Stopped;
    LoopLayout(l, s, st, nm, pool, env, n, high, brk);
    LoopFacts(l, s, st, nm, pool, env, n, high, brk);
    assert s.frames != [] by { ReadyParts(l, s, nm, pool, env, n, high); }
    var exit := LoopExit(st, nm, pool, n, s.ip);
    var b := BodyPart(st, nm, pool, n, s.ip);
    var res' := if res.Broke? then Next(res.env, res.heap) else res;
    assert CodeDone(l, s, k, fuel, res', exit, b.next, brk, high, inLoop);
    k' := ThenNop(l, s, k, fuel, res', exit, b.next, brk, high, inLoop);
  }

  lemma LoopTimeout(
    l: Linked, s: M.State, st: Stmt, nm: Names, pool: Pool, env: Env, n: nat, high: nat, inLoop: bool, brk: int)
    requires LoopReady(l, s, st, nm, pool, env, n, high, brk)
    ensures LoopSimulated(l, s, 0, st, nm, pool, env, n, high, inLoop, brk, 0)
  {
    hide WellLinked, Placed, GoodPool, GoodNames, CompileStmt, OkExpr, OkStmts;
  }

  /** What one round of the loop means for the whole loop. */
  lemma LoopRound(fs: seq<Fun>, st: Stmt, env: Env, heap: Heap, fuel: nat)
    requires st.While? && fuel > 0 && Eval(fs, st.check, env, heap, fuel).Val? && Truthy(Eval(fs, st.check, env, heap, fuel).v)
    ensures var r := Exec(fs, st.body, env, Eval(fs, st.check, env, heap, fuel).heap, fuel);
            && (r.Next? ==> ExecStmt(fs, st, env, heap, fuel) == ExecStmt(fs, st, r.env, r.heap, fuel - 1))
            && (!r.Next? ==> ExecStmt(fs, st, env, heap, fuel) == if r.Broke? then Next(r.env, r.heap) else r)
  {
    hide Eval, Exec, Truthy;
  }

  lemma {:induction false} SimulateLoop(
    l: Linked, s: M.State, st: Stmt, nm: Names, pool: Pool, env: Env,
    n: nat, high: nat, inLoop: bool, brk: int, fuel: nat) returns (k: nat)
    requires LoopReady(l, s, st, nm, pool, env, n, high, brk) && st.While? && high >= BodyPart(st, nm, pool, n, s.ip).next
    ensures LoopSimulated(l, s, k, st, nm, pool, env, n, high, inLoop, brk, fuel)
    decreases fuel, 1, st, 0
  {
    hide *;
    if fuel == 0 {
      LoopTimeout(l, s, st, nm, pool, env, n, high, inLoop, brk);
      k := 0;
      return;
    }
    CheckReady(l, s, st, nm, pool, env, n, high, brk);
    k := SimulateExpr(l, M.Steps(l.code, s, 1), st.check, nm, pool, env, n, high, fuel);
    var res := Eval(l.sg.fs, st.check, env, s.heap, fuel);
    if res.Stops? {
      LoopStops(l, s, k, st, nm, pool, env, n, high, inLoop, brk, fuel);
      k := 1 + k;
      return;
    }
    Checked(l, s, k, st, nm, pool, env, n, high, brk, fuel);
    k := k + 2;
    var t := M.Steps(l.code, s, k);
    if !Truthy(res.v) {
      k := LoopSkipped(l, s, k, t, st, nm, pool, env, n, high, inLoop, brk, fuel);
      return;
    }
    BodyReady(l, s, t, st, nm, pool, env, n, high, brk);
    var r := LowerExpr(nm, st.check, pool, n);
    var k2 := SimulateStmts(l, t, st.body, nm, r.pool, env, r.next, high, true, LoopExit(st, nm, pool, n, s.ip), fuel);
    BodyFinish(l, s, k, k2, st, nm, pool, env, n, high, brk, fuel);
    LoopRound(l.sg.fs, st, env, s.heap, fuel);
    k := k + k2;
    var b := Exec(l.sg.fs, st.body, env, t.heap, fuel);
    if b.Next? {
      RoundDone(l, s, k, st, nm, pool, env, n, high, brk, fuel, b.env, b.heap);
      k2 := SimulateLoop(l, M.Steps(l.code, s, k + 1), st, nm, pool, b.env, n, high, inLoop, brk, fuel - 1);
      LoopAgain(l, s, k + 1, k2, st, nm, pool, env, n, high, inLoop, brk, fuel, b.env);
      k := k + 1 + k2;
    } else {
      k := LoopLeft(l, s, k, st, nm, pool, env, n, high, inLoop, brk, fuel, b);
    }
  }

  /** The bound on temporaries inside a loop that starts at `n`. */
  function LoopHigh(st: Stmt, n: nat, lim: nat): nat {
    if lim >= n + StmtTemps(st) then lim else n + StmtTemps(st)
  }

  lemma WhileReady(
    l: Linked, s: M.State, st: Stmt, nm: Names, pool: Pool, env: Env, n: nat, lim: nat, inLoop: bool, brk: int)
    requires st.While? && StmtReady(l, s, st, nm, pool, env, n, lim, inLoop, brk)
    ensures LoopReady(l, s, st, nm, pool, env, n, LoopHigh(st, n, lim), brk)
    ensures LoopHigh(st, n, lim) >= BodyPart(st, nm, pool, n, s.ip).next == CompileStmt(st, nm, pool, n, s.ip, brk).next
  {
    hide Placed, CompileStmts, GoodPool, GoodNames, WellLinked, LowerExpr, TranslateAll, OkExpr, OkStmts, StmtTemps;
    BlockPrepared(l, s, nm, pool, env, n, lim);
    CompileStmtFacts(l.sg, st, nm, pool, n, lim, inLoop, s.ip, brk);
    LoopShape(st, nm, pool, n, s.ip, brk);
    WhileTemps(st);
  }

  lemma WhileTemps(st: Stmt)
    requires st.While?
    ensures StmtTemps(st) == Temps(st.check) + BlockTemps(st.body)
  {
  }

  lemma WhileDone(
    l: Linked, s: M.State, k: nat, st: Stmt, nm: Names, pool: Pool, env: Env, n: nat, lim: nat, inLoop: bool, brk: int, fuel: nat)
    requires st.While? && lim >= 1 && CompileStmt(st, nm, pool, n, s.ip, brk).next == n + StmtTemps(st)
    requires LoopSimulated(l, s, k, st, nm, pool, env, n, LoopHigh(st, n, lim), inLoop, brk, fuel)
    ensures StmtSimulated(l, s, k, st, nm, pool, env, n, lim, inLoop, brk, fuel)
  {
    hide CompileStmt, Stopped, M.Steps, ExecStmt, StmtTemps;
  }

  lemma WhileNext(
    l: Linked, s: M.State, st: Stmt, nm: Names, pool: Pool, env: Env, n: nat, lim: nat, inLoop: bool, brk: int)
    requires st.While? && StmtReady(l, s, st, nm, pool, env, n, lim, inLoop, brk)
    ensures lim >= 1 && CompileStmt(st, nm, pool, n, s.ip, brk).next == n + StmtTemps(st)
  {
    hide Placed, CompileStmts, CompileStmt, GoodPool, GoodNames, WellLinked, LowerExpr, TranslateAll, OkExpr, OkStmts, StmtTemps, OkStmt;
    BlockPrepared(l, s, nm, pool, env, n, lim);
    CompileStmtFacts(l.sg, st, nm, pool, n, lim, inLoop, s.ip, brk);
  }

  lemma {:induction false} SimulateWhile(
    l: Linked, s: M.State, st: Stmt, nm: Names, pool: Pool, env: Env,
    n: nat, lim: nat, inLoop: bool, brk: int, fuel: nat) returns (k: nat)
    requires st.While? && StmtReady(l, s, st, nm, pool, env, n, lim, inLoop, brk)
    ensures StmtSimulated(l, s, k, st, nm, pool, env, n, lim, inLoop, brk, fuel)
    decreases fuel, 1, st, 1
  {
    hide *;
    WhileReady(l, s, st, nm, pool, env, n, lim, inLoop, brk);
    WhileNext(l, s, st, nm, pool, env, n, lim, inLoop, brk);
    k := SimulateLoop(l, s, st, nm, pool, env, n, LoopHigh(st, n, lim), inLoop, brk, fuel);
    WhileDone(l, s, k, st, nm, pool, env, n, lim, inLoop, brk, fuel);
  }

  // ---------------------------------------------------------------- activations

  /** The call step opens a window over the arguments. */
  lemma CallStep(l: Linked, s: M.State, name: string, vs: seq<Value>)
    requires CallReady(l, s, name, vs)
    ensures var i := FindFunction(l.sg.fs, name);
            && i < |l.sg.fs| == |l.pools| == |l.code.chunks| && |l.sg.fs[i].params| == |vs|
            && M.Step(l.code, s) == Entered(s, i, |vs|)
  {
    hide WellLinked, Placed, FindFunction;
    PlacedOne(l.code, s, CallInstr(FindFunction(l.sg.fs, name), |vs|));
    assert |l.sg.fs| == |l.pools| == |l.code.chunks| by { LinkedSizes(l); }
  }

  lemma LinkedSizes(l: Linked)
    requires WellLinked(l)
    ensures |l.sg.fs| == |l.pools| == |l.code.chunks| == |l.tables|
  {
    hide OkFunction, FunctionPlaced, NamesOk;
  }

  function Entered(s: M.State, fn: int, argc: int): M.State {
    M.State(fn, 0, s.rft - argc + 1, s.rft, s.mem, s.heap, s.frames + [M.Frame(s.fn, s.ip + 1, s.rbp, s.rft)], M.Ok)
  }

  lemma LinkedFunction(l: Linked, i: nat)
    requires WellLinked(l) && i < |l.sg.fs|
    ensures |l.sg.fs| == |l.pools| == |l.code.chunks| == |l.tables| && OkFunction(l.sg, l.sg.fs[i]) && FunctionPlaced(l, i)
    ensures l.natives.Keys == l.sg.natives
  {
    hide OkFunction, FunctionPlaced, NamesOk;
  }

  /** The final table of a function, seen from its start and from its end. */
  lemma BodyAhead(l: Linked, i: nat)
    requires WellLinked(l) && i < |l.sg.fs| == |l.pools|
    ensures var f := l.sg.fs[i];
            var nm := Names(l.natives, ParamLocals(f.params));
            var c := CompileStmts(f.body, nm, l.pools[i], |f.params|, 0, 0);
            && nm.locals.Keys == ParamNames(f.params) && GoodNames(l.sg, nm, |f.params|) && c.next >= 0
            && Ahead(Table(l, i), nm, |f.params|) && Ahead(Table(l, i), c.nm, c.next)
  {
    hide OkStmts, GoodPool, NothingLost, FreshName, ParamLocals, Distinct, CompileStmts, NamesOk, WellLinked, Ahead, GoodNames,
         Extends, Keeps, NewFrom, BlockTemps, DefinedIn;
    LinkedFunction(l, i);
    LinkedNames(l);
    var f := l.sg.fs[i];
    var nm := Names(l.natives, ParamLocals(f.params));
    ParamFacts(f.params);
    ParamsGood(l.sg, nm, f.params);
    CompileStmtsFacts(l.sg, f.body, nm, l.pools[i], |f.params|, 1, false, 0, 0);
    var c := CompileStmts(f.body, nm, l.pools[i], |f.params|, 0, 0);
    AheadEnd(l.sg, c.nm, c.next);
    AheadBefore(Table(l, i), c.nm, c.next, nm, |f.params|);
  }

  /** The callee's registers when it starts: its parameters, in order. */
  lemma CalleeAgrees(l: Linked, s: M.State, i: nat, vs: seq<Value>)
    requires WellLinked(l) && i < |l.sg.fs| == |l.pools| && M.Running(s) && |l.sg.fs[i].params| == |vs|
    requires forall j | 0 <= j < |vs| :: M.Read(s.mem, s.rft - |vs| + 1 + j) == vs[j]
    ensures var f := l.sg.fs[i];
            var nm := Names(l.natives, ParamLocals(f.params));
            Ready(l, Entered(s, i, |vs|), nm, l.pools[i], Bind(f.params, vs), |f.params|, 1)
  {
    hide OkStmts, GoodPool, GoodNames, NothingLost, FreshName, Agree, Bind, ParamLocals, Distinct, M.Read, WellLinked, CompileStmts, Ahead, Table;
    LinkedFunction(l, i);
    BodyAhead(l, i);
    var params := l.sg.fs[i].params;
    ArgsAgree(Entered(s, i, |vs|), Table(l, i), l.natives, params, vs);
  }

  lemma ArgsAgree(u: M.State, all: map<string, Ir.Addr>, natives: map<string, int>, params: seq<string>, vs: seq<Value>)
    requires Distinct(params) && |params| == |vs| && Ahead(all, Names(natives, ParamLocals(params)), |params|)
    requires forall j | 0 <= j < |vs| :: M.Read(u.mem, u.rbp + j) == vs[j]
    ensures Agree(u, all, Bind(params, vs), M.Max(|params|, 1))
  {
    hide Bind, ParamLocals, Distinct, Ahead, M.Read;
    BindFacts(params, vs);
    ParamFacts(params);
    assert forall i | 0 <= i < |params| :: params[i] in all && all[params[i]] == Ir.TempAt(i) by {
      ParamsKept(all, natives, params);
    }
    forall x | x in Bind(params, vs)
      ensures x in all && 0 <= all[x].id < M.Max(|params|, 1) && M.Read(u.mem, u.rbp + all[x].id) == Bind(params, vs)[x]
    {
      var j :| 0 <= j < |params| && params[j] == x;
    }
  }

  lemma ParamsKept(all: map<string, Ir.Addr>, natives: map<string, int>, params: seq<string>)
    requires Distinct(params) && Ahead(all, Names(natives, ParamLocals(params)), |params|)
    ensures forall i | 0 <= i < |params| :: params[i] in all && all[params[i]] == Ir.TempAt(i)
  {
    hide ParamLocals, Distinct;
    ParamFacts(params);
    forall i | 0 <= i < |params| ensures params[i] in all && all[params[i]] == Ir.TempAt(i) {
      assert params[i] in ParamNames(params);
    }
  }

  /** The callee's code is ready to run in its new window. */
  lemma CalleeReady(l: Linked, s: M.State, name: string, vs: seq<Value>)
    requires CallReady(l, s, name, vs)
    ensures var i := FindFunction(l.sg.fs, name);
            var f := l.sg.fs[i];
            && i < |l.pools| == |l.code.chunks|
            && BlockReady(l, Entered(s, i, |vs|), f.body, Names(l.natives, ParamLocals(f.params)), l.pools[i], Bind(f.params, vs),
                          |f.params|, 1, false, 0)
            && |CompileStmts(f.body, Names(l.natives, ParamLocals(f.params)), l.pools[i], |f.params|, 0, 0).code|
               == |l.code.chunks[i]|
  {
    hide FindFunction, CompileStmts, OkStmts, GoodPool, GoodNames, NamesOk, NothingLost, WellLinked, FreshName, Ready, Ahead, Table;
    var i := FindFunction(l.sg.fs, name);
    LinkedFunction(l, i);
    BodyAhead(l, i);
    CalleeAgrees(l, s, i, vs);
    assert l.code.chunks[i][0..|l.code.chunks[i]|] == l.code.chunks[i];
  }

  lemma ParamsGood(sg: Signature, nm: Names, params: seq<string>)
    requires Distinct(params) && nm.natives.Keys == sg.natives && nm.locals == ParamLocals(params)
    requires forall i | 0 <= i < |params| :: FreshName(sg, params[i])
    ensures GoodNames(sg, nm, |params|)
  {
    hide FreshName;
    ParamFacts(params);
    forall x | x in nm.locals ensures FreshName(sg, x) && nm.locals[x].tag == Ir.Temp && 0 <= nm.locals[x].id < |params| {
      var i :| 0 <= i < |params| && params[i] == x;
    }
    forall x, y | x in nm.locals && y in nm.locals && x != y ensures nm.locals[x].id != nm.locals[y].id {
      var i :| 0 <= i < |params| && params[i] == x;
      var j :| 0 <= j < |params| && params[j] == y;
    }
  }

  /** From the end of the callee's body back to the caller. */
  lemma CalleeDone(l: Linked, s: M.State, k: nat, name: string, vs: seq<Value>, fuel: nat) returns (k': nat)
    requires CallReady(l, s, name, vs) && fuel > 0
    requires var i := FindFunction(l.sg.fs, name);
             var f := l.sg.fs[i];
             var u := M.Step(l.code, s);
             && u == Entered(s, i, |vs|)
             && BlockSimulated(l, u, k, f.body, Names(l.natives, ParamLocals(f.params)), l.pools[i], Bind(f.params, vs),
                               |f.params|, 1, false, 0, fuel - 1)
             && |CompileStmts(f.body, Names(l.natives, ParamLocals(f.params)), l.pools[i], |f.params|, 0, 0).code|
                == |l.code.chunks[i]|
    ensures CallDone(l, s, k', fuel, Invoke(l.sg.fs, name, vs, s.heap, fuel), |vs|)
  {
    hide CompileStmts, WellLinked, Placed, Exec, M.Step, Bind, ParamLocals, FindFunction;
    var u := M.Step(l.code, s);
    var f := l.sg.fs[FindFunction(l.sg.fs, name)];
    M.StepsNone(l.code, s);
    M.StepsSucc(l.code, s, 0);
    M.StepsAdd(l.code, s, 1, k);
    k' := 1 + k;
    match Exec(l.sg.fs, f.body, Bind(f.params, vs), s.heap, fuel - 1)
    case Returned(v, h) =>
    case Next(env, h) =>
      RunsOff(l.code, s, k', M.Steps(l.code, u, k));
      k' := k' + 1;
    case Broke(env, h) =>
    case Halts(why) => StoppedLater(l.code, s, 1, k, fuel - 1, why);
  }

  lemma RunsOff(code: M.Code, s: M.State, k: nat, t: M.State)
    requires t == M.Steps(code, s, k) && M.Running(t) && !M.AtInstr(code, t)
    ensures M.Steps(code, s, k + 1).status == M.RanOff
  {
    M.StepsSucc(code, s, k);
  }

  lemma InvokeTimeout(l: Linked, s: M.State, name: string, vs: seq<Value>)
    requires CallReady(l, s, name, vs)
    ensures CallDone(l, s, 0, 0, Invoke(l.sg.fs, name, vs, s.heap, 0), |vs|)
  {
    hide WellLinked, Placed, FindFunction;
  }

  lemma {:induction false} SimulateInvoke(l: Linked, s: M.State, name: string, vs: seq<Value>, fuel: nat) returns (k: nat)
    requires CallReady(l, s, name, vs)
    ensures CallDone(l, s, k, fuel, Invoke(l.sg.fs, name, vs, s.heap, fuel), |vs|)
    decreases fuel, 0
  {
    hide *;
    if fuel == 0 {
      InvokeTimeout(l, s, name, vs);
      k := 0;
      return;
    }
    CallStep(l, s, name, vs);
    CalleeReady(l, s, name, vs);
    var i := FindFunction(l.sg.fs, name);
    var f := l.sg.fs[i];
    k := SimulateStmts(l, M.Step(l.code, s), f.body, Names(l.natives, ParamLocals(f.params)), l.pools[i], Bind(f.params, vs),
                       |f.params|, 1, false, 0, fuel - 1);
    k := CalleeDone(l, s, k, name, vs, fuel);
  }
}
