/** Register windows keep activations apart, for any code and runs of any length
    (src/runtime/vm.cpp:342-614). */
module Windows {
  import opened Values
  import opened M = Machine

  /** Instructions that write the register named by their first operand. */
  predicate WritesRegister(op: Opcode) {
    op in {MakeSeq, Mov, Neg} || op.Compute?
  }

  /** The next round writes no register below its window, and a call opens its window at or
      above the current one. */
  predicate StepsUp(code: Code, s: State) {
    && Running(s) && AtInstr(code, s)
    && var i := code.chunks[s.fn][s.ip];
    && (WritesRegister(i.op) ==> i.a.id >= 0)
    && (i.op == Call ==> s.rft - i.b.id + 1 >= s.rbp)
  }

  /** Up to round `k` the activation that began in `s` has not returned. */
  ghost predicate Inside(code: Code, s: State, k: nat) {
    forall j | 0 <= j < k :: StepsUp(code, Steps(code, s, j)) && |Steps(code, s, j).frames| >= |s.frames|
  }

  /** A state of the activation that began in `s`, or of a call made from it. */
  ghost predicate Nested(s: State, t: State) {
    && |t.frames| >= |s.frames| && t.frames[..|s.frames|] == s.frames
    && (forall i | |s.frames| <= i < |t.frames| :: t.frames[i].rbp >= s.rbp)
    && t.rbp >= s.rbp
    && (if |t.frames| == |s.frames| then t.rbp == s.rbp else t.frames[|s.frames|].rbp == s.rbp)
  }

  ghost predicate BelowKept(s: State, t: State) {
    forall i | i < s.rbp :: Read(t.mem, i) == Read(s.mem, i)
  }

  /** One round from inside the activation: it stays inside or returns to the caller. */
  lemma StepInside(code: Code, s: State, t: State)
    requires s.frames != [] && Nested(s, t) && BelowKept(s, t) && StepsUp(code, t)
    ensures var u := Step(code, t);
            && BelowKept(s, u)
            && (|u.frames| >= |s.frames| ==> Nested(s, u))
            && (|u.frames| < |s.frames| ==> ReturnedTo(code, s, t, u))
  {
    var i := code.chunks[t.fn][t.ip];
    var u := Execute(code, t, i);
    if i.op == Ret && Fetch(code, t, i.a).Found? {
      assert u.frames == t.frames[..|t.frames| - 1];
      if |t.frames| == |s.frames| {
        assert t.frames == s.frames;
      } else {
        assert u.frames[..|s.frames|] == t.frames[..|s.frames|];
      }
    } else if i.op == Call {
      assert u.frames[..|s.frames|] == t.frames[..|s.frames|];
      assert |t.frames| == |s.frames| ==> u.frames[|s.frames|].rbp == t.rbp;
    }
  }

  /** `u` is back in the caller: all four special registers come from the frame saved by the
      call, and the cell at the base of the window holds the value that `t` returned. */
  ghost predicate ReturnedTo(code: Code, s: State, t: State, u: State)
    requires s.frames != []
  {
    var f := s.frames[|s.frames| - 1];
    && u.fn == f.fn && u.ip == f.ip && u.rbp == f.rbp && u.rft == f.rft && u.frames == s.frames[..|s.frames| - 1]
    && t.frames == s.frames && t.rbp == s.rbp && s.rbp in u.mem && u.mem == t.mem[s.rbp := u.mem[s.rbp]]
    && AtInstr(code, t) && code.chunks[t.fn][t.ip].op == Ret && Fetch(code, t, code.chunks[t.fn][t.ip].a) == Found(u.mem[s.rbp])
  }

  /** Nothing executed before the matching return writes a cell below the window. */
  lemma {:induction false} NothingBelow(code: Code, s: State, k: nat)
    requires s.frames != [] && Inside(code, s, k)
    ensures BelowKept(s, Steps(code, s, k))
    ensures |Steps(code, s, k).frames| >= |s.frames| ==> Nested(s, Steps(code, s, k))
    ensures |Steps(code, s, k).frames| < |s.frames| ==>
              k > 0 && ReturnedTo(code, s, Steps(code, s, k - 1), Steps(code, s, k))
    decreases k
  {
    hide Step, StepsUp, Nested, BelowKept, ReturnedTo;
    StepsNone(code, s);
    if k == 0 {
      NestedSelf(s);
    } else {
      NothingBelow(code, s, k - 1);
      StepsSucc(code, s, k - 1);
      StepInside(code, s, Steps(code, s, k - 1));
    }
  }

  lemma NestedSelf(s: State)
    ensures Nested(s, s) && BelowKept(s, s)
  {
    assert s.frames[..|s.frames|] == s.frames;
  }

  /** A call and its matching return, whatever runs in between: the caller goes on after the
      call with all its special registers as before, and no cell below the window of the
      callee has changed. */
  lemma CallReturns(code: Code, c: State, k: nat)
    requires StepsUp(code, c) && code.chunks[c.fn][c.ip].op == Call
    requires var s := Step(code, c);
             Inside(code, s, k) && |Steps(code, s, k).frames| < |s.frames|
    ensures var t := Steps(code, c, k + 1);
            var base := c.rft - code.chunks[c.fn][c.ip].b.id + 1;
            && t.fn == c.fn && t.ip == c.ip + 1 && t.rbp == c.rbp && t.rft == c.rft && t.frames == c.frames
            && (forall i | i < base :: Read(t.mem, i) == Read(c.mem, i))
            && k > 0
            && var r := Steps(code, c, k);
            && AtInstr(code, r) && code.chunks[r.fn][r.ip].op == Ret && r.rbp == base
            && Fetch(code, r, code.chunks[r.fn][r.ip].a) == Found(Read(t.mem, base))
  {
    var s := Step(code, c);
    NothingBelow(code, s, k);
    StepsAdd(code, c, 1, k);
    assert Steps(code, c, 1) == s by {
      StepsNone(code, c);
      StepsSucc(code, c, 0);
    }
    if k > 0 {
      StepsAdd(code, c, 1, k - 1);
    }
    hide Steps, Step;
    assert s.frames[..|c.frames|] == c.frames;
  }
}
