/** Which way a condition goes (src/runtime/fast_value.hpp:113-122, src/runtime/vm.cpp:552-558):
    a number decides like its comparison with zero. */
module BranchLaws {
  import opened Values
  import opened Syntax
  import opened Semantics
  import opened ValueLaws
  import M = Machine

  const ZERO := Literal(TkInt, "0")
  const FLOAT_ZERO := Literal(TkDouble, "0.0")

  function NotZero(e: Expr, zero: Expr): Expr {
    Binary(Operator.Arith(Neq), e, zero)
  }

  /** The zero that the value is compared with is one of its kind. */
  predicate ZeroOf(zero: Expr, v: Value) {
    (v.Int? && zero == ZERO) || (v.Flt? && zero == FLOAT_ZERO)
  }

  lemma Zeros()
    ensures LiteralValue(TkInt, "0") == Int(0) && LiteralValue(TkDouble, "0.0") == Flt(0.0)
  {
    assert "0.0"[0] == '0' && "0.0"[1] == '.' && "0.0"[2] == '0';
    assert UpToMinus("0.0") == "0.0" by {
      assert "0.0"[1..][0] == '.' && "0.0"[1..][1..][0] == '0' && "0.0"[1..][1..][1..] == [];
      assert "0.0"[1..][1..] == "0" && "0.0"[1..] == ".0";
    }
    assert "0.0"[1..] == ".0" && PointIndex(".0") == 0 && PointIndex("0.0") == 1;
    assert "0.0"[..1] == "0" && "0.0"[2..] == "0";
    assert DigitsValue("0") == 0 by { assert "0"[..0] == []; }
    assert FractionValue("0") == 0.0 by { assert "0"[1..] == []; }
  }

  /** The comparison with zero of a condition that is a number. */
  lemma Compared(fs: seq<Fun>, e: Expr, zero: Expr, env: Env, heap: Heap, fuel: nat)
    requires Eval(fs, e, env, heap, fuel).Val? && ZeroOf(zero, Eval(fs, e, env, heap, fuel).v)
    ensures var r := Eval(fs, e, env, heap, fuel);
            Eval(fs, NotZero(e, zero), env, heap, fuel) == Val(Bool(Truthy(r.v)), r.heap)
  {
    hide LiteralValue, Truthy;
    Zeros();
    var r := Eval(fs, e, env, heap, fuel);
    TruthExactly(r.v);
    assert Eval(fs, zero, env, r.heap, fuel) == Val(if zero == ZERO then Int(0) else Flt(0.0), r.heap);
  }

  /** `if e` with a number does what `if e != 0` does. */
  lemma IfNumber(fs: seq<Fun>, cond: Expr, zero: Expr, thn: seq<Stmt>, els: Else, env: Env, heap: Heap, fuel: nat)
    requires Eval(fs, cond, env, heap, fuel).Val? && ZeroOf(zero, Eval(fs, cond, env, heap, fuel).v)
    ensures ExecStmt(fs, If(cond, thn, els), env, heap, fuel) == ExecStmt(fs, If(NotZero(cond, zero), thn, els), env, heap, fuel)
  {
    hide Eval, Truthy;
    Compared(fs, cond, zero, env, heap, fuel);
    TruthExactly(Bool(Truthy(Eval(fs, cond, env, heap, fuel).v)));
  }

  /** A boolean decides itself; a dud and an object take the other branch. */
  lemma IfOther(fs: seq<Fun>, cond: Expr, thn: seq<Stmt>, els: Else, env: Env, heap: Heap, fuel: nat)
    requires var r := Eval(fs, cond, env, heap, fuel); r.Val? && !r.v.Int? && !r.v.Flt?
    ensures var r := Eval(fs, cond, env, heap, fuel);
            ExecStmt(fs, If(cond, thn, els), env, heap, fuel) ==
              if r.v == Bool(true) then Exec(fs, thn, env, r.heap, fuel)
              else Exec(fs, if els.NoElse? then [] else els.body, env, r.heap, fuel)
  {
    hide Eval, Truthy;
    TruthExactly(Eval(fs, cond, env, heap, fuel).v);
    assert Exec(fs, [], env, Eval(fs, cond, env, heap, fuel).heap, fuel) == Next(env, Eval(fs, cond, env, heap, fuel).heap);
  }

  /** In every round that the loop gets to, the condition is a number of one kind. */
  ghost predicate NumberRounds(fs: seq<Fun>, check: Expr, zero: Expr, body: seq<Stmt>, env: Env, heap: Heap, fuel: nat)
    decreases fuel
  {
    var c := Eval(fs, check, env, heap, fuel);
    c.Val? ==>
      && ZeroOf(zero, c.v)
      && (fuel > 0 && Eval(fs, NotZero(check, zero), env, heap, fuel) == Val(Bool(true), c.heap) ==>
            match Exec(fs, body, env, c.heap, fuel)
            case Next(env', h) => NumberRounds(fs, check, zero, body, env', h, fuel - 1)
            case _ => true)
  }

  /** One round of a loop. */
  lemma OneRound(fs: seq<Fun>, check: Expr, body: seq<Stmt>, env: Env, heap: Heap, fuel: nat)
    ensures fuel == 0 ==> ExecStmt(fs, While(check, body), env, heap, fuel) == Halts(Timeout)
    ensures var c := Eval(fs, check, env, heap, fuel);
            fuel > 0 ==>
              ExecStmt(fs, While(check, body), env, heap, fuel) ==
                if c.Stops? then Halts(c.why)
                else if !Truthy(c.v) then Next(env, c.heap)
                else match Exec(fs, body, env, c.heap, fuel)
                     case Next(env', h) => ExecStmt(fs, While(check, body), env', h, fuel - 1)
                     case Broke(env', h) => Next(env', h)
                     case other => other
  {
    hide Eval, Exec, Truthy;
  }

  /** `while e` with numbers does what `while e != 0` does, round by round. */
  lemma {:induction false} WhileNumber(fs: seq<Fun>, check: Expr, zero: Expr, body: seq<Stmt>, env: Env, heap: Heap, fuel: nat)
    requires NumberRounds(fs, check, zero, body, env, heap, fuel)
    ensures ExecStmt(fs, While(check, body), env, heap, fuel) == ExecStmt(fs, While(NotZero(check, zero), body), env, heap, fuel)
    decreases fuel
  {
    hide Eval, Exec, ExecStmt, Truthy, ZeroOf, NotZero;
    OneRound(fs, check, body, env, heap, fuel);
    OneRound(fs, NotZero(check, zero), body, env, heap, fuel);
    var c := Eval(fs, check, env, heap, fuel);
    if c.Val? {
      Compared(fs, check, zero, env, heap, fuel);
      TruthExactly(Bool(Truthy(c.v)));
      var r := Exec(fs, body, env, c.heap, fuel);
      if fuel > 0 && Truthy(c.v) && r.Next? {
        WhileNumber(fs, check, zero, body, r.env, r.heap, fuel - 1);
      }
    } else {
      NoComparison(fs, check, zero, env, heap, fuel);
    }
  }

  lemma NoComparison(fs: seq<Fun>, e: Expr, zero: Expr, env: Env, heap: Heap, fuel: nat)
    requires Eval(fs, e, env, heap, fuel).Stops?
    ensures Eval(fs, NotZero(e, zero), env, heap, fuel) == Eval(fs, e, env, heap, fuel)
  {
  }

  /** A boolean decides whether there is another round; a dud and an object end the loop. */
  lemma WhileOther(fs: seq<Fun>, check: Expr, body: seq<Stmt>, env: Env, heap: Heap, fuel: nat)
    requires fuel > 0 && var c := Eval(fs, check, env, heap, fuel); c.Val? && !c.v.Int? && !c.v.Flt?
    ensures var c := Eval(fs, check, env, heap, fuel);
            ExecStmt(fs, While(check, body), env, heap, fuel) ==
              if c.v != Bool(true) then Next(env, c.heap)
              else match Exec(fs, body, env, c.heap, fuel)
                   case Next(env', h) => ExecStmt(fs, While(check, body), env', h, fuel - 1)
                   case Broke(env', h) => Next(env', h)
                   case other => other
  {
    hide Eval, Exec, ExecStmt, Truthy;
    OneRound(fs, check, body, env, heap, fuel);
    TruthExactly(Eval(fs, check, env, heap, fuel).v);
  }

  /** The machine goes on behind the jump exactly with a number that is not zero or with true;
      otherwise it goes to the target. */
  lemma JumpElseExactly(code: M.Code, s: M.State)
    requires M.Running(s) && M.AtInstr(code, s) && code.chunks[s.fn][s.ip].op == M.JumpElse
    ensures var i := code.chunks[s.fn][s.ip];
            var v := M.Read(s.mem, s.rbp + i.a.id);
            var on := match v
                      case Int(n) => n > 0 || n < 0
                      case Flt(r) => r > 0.0 || r < 0.0
                      case Bool(b) => b
                      case _ => false;
            M.Step(code, s) == s.(ip := if on then s.ip + 1 else i.b.id)
  {
  }
}
