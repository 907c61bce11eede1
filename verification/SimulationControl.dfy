/** Results of statement execution on the machine, and how they compose. */
module SimulationControl {
  import opened Values
  import opened Syntax
  import opened Semantics
  import opened Fragment
  import opened CompileFacts
  import opened Compositional
  import opened SimulationBase
  import M = Machine
  import Ir

  /** `t` is in the same activation as `s`; nothing below its window changed. */
  ghost predicate StaysIn(s: M.State, t: M.State) {
    && t == M.State(s.fn, t.ip, s.rbp, t.rft, t.mem, t.heap, s.frames, M.Ok) && |s.heap| <= |t.heap|
    && forall i | i < s.rbp :: M.Read(t.mem, i) == M.Read(s.mem, i)
  }

  /** `t` is back in the caller of `s`: the special registers come from the topmost frame,
      the result is at the base of the window, nothing below it changed. */
  ghost predicate ReturnsTo(s: M.State, t: M.State, v: Value) {
    && s.frames != []
    && var f := s.frames[|s.frames| - 1];
    && t == M.State(f.fn, f.ip, f.rbp, f.rft, t.mem, t.heap, s.frames[..|s.frames| - 1], M.Ok) && |s.heap| <= |t.heap|
    && M.Read(t.mem, s.rbp) == v
    && forall i | i < s.rbp :: M.Read(t.mem, i) == M.Read(s.mem, i)
  }

  /** Control is at `ip` of the same activation with the environment in its registers. */
  ghost predicate Reaches(
    s: M.State, t: M.State, ip: int, all: map<string, Ir.Addr>, next: int, env: Env, h: Heap, lim: int)
  {
    StaysIn(s, t) && t.ip == ip && t.heap == h && Agree(t, all, env, M.Max(next, lim)) && TopBound(t, next, lim)
  }

  /** What the machine does after `k` rounds for each result of the source execution. */
  ghost predicate CodeDone(
    l: Linked, s: M.State, k: nat, fuel: nat, res: ExecResult,
    end: int, next: int, brk: int, lim: int, inLoop: bool)
  {
    var t := M.Steps(l.code, s, k);
    match res
    case Next(env, h) => Reaches(s, t, end, Table(l, s.fn), next, env, h, lim)
    case Broke(env, h) => inLoop && Reaches(s, t, brk, Table(l, s.fn), next, env, h, lim)
    case Returned(v, h) => ReturnsTo(s, t, v) && t.heap == h
    case Halts(why) => Stopped(l.code, s, k, fuel, why)
  }

  /** Rounds spent before `u` in the same activation; if there were any, they pay for fuel. */
  lemma Lift(
    l: Linked, s: M.State, j: nat, k: nat, fuel: nat, res: ExecResult,
    end: int, next: int, brk: int, lim: int, inLoop: bool)
    requires StaysIn(s, M.Steps(l.code, s, j))
    requires CodeDone(l, M.Steps(l.code, s, j), k, fuel, res, end, next, brk, lim, inLoop)
    ensures CodeDone(l, s, j + k, fuel, res, end, next, brk, lim, inLoop)
    ensures j > 0 ==> CodeDone(l, s, j + k, fuel + 1, res, end, next, brk, lim, inLoop)
  {
    hide Stopped, M.Steps, Table;
    M.StepsAdd(l.code, s, j, k);
    if res.Halts? {
      StoppedLater(l.code, s, j, k, fuel, res.why);
    }
  }

  lemma Weaken(
    l: Linked, s: M.State, k: nat, fuel: nat, res: ExecResult,
    end: int, next: int, brk: int, lim: int, inLoop: bool, next': int)
    requires CodeDone(l, s, k, fuel, res, end, next, brk, lim, inLoop) && next <= next'
    ensures CodeDone(l, s, k, fuel, res, end, next', brk, lim, inLoop)
  {
    hide Stopped, M.Steps, Table;
  }

  lemma OtherEnd(
    l: Linked, s: M.State, k: nat, fuel: nat, res: ExecResult,
    end: int, next: int, brk: int, lim: int, inLoop: bool, end': int)
    requires CodeDone(l, s, k, fuel, res, end, next, brk, lim, inLoop) && !res.Next?
    ensures CodeDone(l, s, k, fuel, res, end', next, brk, lim, inLoop)
  {
    hide Stopped, M.Steps, Reaches, ReturnsTo;
  }

  lemma NopStep(code: M.Code, s: M.State, k: nat, t: M.State)
    requires t == M.Steps(code, s, k) && M.Running(t) && Placed(code, t.fn, t.ip, [NOP])
    ensures M.Steps(code, s, k + 1) == t.(ip := t.ip + 1)
  {
    hide M.Step;
    M.StepsSucc(code, s, k);
    PlacedOne(code, t, NOP);
  }

  lemma JumpStep(code: M.Code, s: M.State, k: nat, t: M.State, target: int)
    requires t == M.Steps(code, s, k) && M.Running(t) && Placed(code, t.fn, t.ip, [JumpTo(target)])
    ensures M.Steps(code, s, k + 1) == t.(ip := target)
  {
    hide M.Step;
    M.StepsSucc(code, s, k);
    PlacedOne(code, t, JumpTo(target));
  }

  lemma BranchStep(code: M.Code, s: M.State, k: nat, t: M.State, check: Ir.Addr, v: Value, target: int)
    requires t == M.Steps(code, s, k) && M.Running(t) && Placed(code, t.fn, t.ip, [JumpElseTo(check, target)])
    requires check.tag == Ir.Temp && M.Fetch(code, t, Translate(check)) == M.Found(v)
    ensures M.Steps(code, s, k + 1) == t.(ip := if Truthy(v) then t.ip + 1 else target)
  {
    hide M.Step;
    M.StepsSucc(code, s, k);
    PlacedOne(code, t, JumpElseTo(check, target));
  }

  /** A `nop` follows. */
  lemma ThenNop(
    l: Linked, s: M.State, k: nat, fuel: nat, res: ExecResult,
    end: int, next: int, brk: int, lim: int, inLoop: bool) returns (k': nat)
    requires CodeDone(l, s, k, fuel, res, end, next, brk, lim, inLoop) && s.frames != []
    requires Placed(l.code, s.fn, end, [NOP])
    ensures CodeDone(l, s, k', fuel, res, end + 1, next, brk, lim, inLoop)
  {
    hide Stopped, M.Steps, Placed, Table;
    k' := k;
    if res.Next? {
      NopStep(l.code, s, k, M.Steps(l.code, s, k));
      k' := k + 1;
    }
  }

  /** A jump follows. */
  lemma ThenJump(
    l: Linked, s: M.State, k: nat, fuel: nat, res: ExecResult,
    end: int, target: int, next: int, brk: int, lim: int, inLoop: bool) returns (k': nat)
    requires CodeDone(l, s, k, fuel, res, end, next, brk, lim, inLoop) && s.frames != []
    requires Placed(l.code, s.fn, end, [JumpTo(target)])
    ensures CodeDone(l, s, k', fuel, res, target, next, brk, lim, inLoop)
  {
    hide Stopped, M.Steps, Placed, Table;
    k' := k;
    if res.Next? {
      JumpStep(l.code, s, k, M.Steps(l.code, s, k), target);
      k' := k + 1;
    }
  }
}
