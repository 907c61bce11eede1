/** Which operator binds first (src/frontend/parsing.cpp:291-430), by the four groups written out
    in order. */
module Precedence {
  import opened Values
  import opened Syntax
  import opened ExprLowering
  import opened ExpressionGrammar

  /** Strongest first. */
  const GROUPS: seq<set<Arith>> := [{Mul, Div, Mod}, {Add, Sub}, {Equ, Neq}, {Lt, Gt, Lte, Gte}]

  predicate Earlier(p: Arith, o: Arith) {
    exists i, j | 0 <= i < j < |GROUPS| :: p in GROUPS[i] && o in GROUPS[j]
  }

  /** Tokens that are read as one operand, whatever follows that cannot go on with it. */
  ghost predicate Operand(ts: seq<Token>, x: Expr) {
    forall rest: seq<Token> | !Continues(rest) :: UnaryTier(ts + rest) == Some(Parsed(x, rest))
  }

  /** Literals, sequences, calls, accesses and negations are operands, and so is anything in
      parentheses. */
  lemma PrintedOperand(x: Expr)
    requires Printable(x)
    ensures Operand(Print(0, x), x) && Operand(Print(2, x), x)
  {
    hide UnaryTier, Print, Printable, Primary;
    forall rest: seq<Token> | !Continues(rest)
      ensures UnaryTier(Print(0, x) + rest) == UnaryTier(Print(2, x) + rest) == Some(Parsed(x, rest))
    {
      UnaryBack(x, rest);
      PrimaryBack(x, rest);
      FirstToken(x);
      PrimaryOperand(Print(0, x), x, rest);
    }
  }

  lemma PrimaryOperand(ts: seq<Token>, x: Expr, rest: seq<Token>)
    requires ts != [] && Opens(ts[0]) && !Continues(rest) && Primary(ts + rest) == Some(Parsed(x, rest))
    ensures UnaryTier(ts + rest) == Some(Parsed(x, rest))
  {
    assert (ts + rest)[0] == ts[0];
    LoopEnds(x, rest);
    assert Lhs(ts + rest) == Some(Parsed(x, rest)) by { hide Primary, LhsLoop; }
    CallEnds(ts + rest, x, rest);
    hide CallTier, Primary;
  }

  /** An operator that the levels up to `k` leave alone. */
  predicate Free(ts: seq<Token>, k: nat) {
    !TakenBelow(ts, k + 1)
  }

  lemma {:induction false} Climbs(ts: seq<Token>, e: Expr, rest: seq<Token>, k: nat, m: nat)
    requires k <= m <= 4 && Level(k, ts) == Some(Parsed(e, rest)) && Free(rest, m)
    ensures Level(m, ts) == Some(Parsed(e, rest))
    decreases m
  {
    if k < m {
      Climbs(ts, e, rest, k, m - 1);
      hide Level;
      OneUp(ts, e, rest, m);
    }
  }

  lemma OneUp(ts: seq<Token>, e: Expr, rest: seq<Token>, m: nat)
    requires 1 <= m <= 4 && Level(m - 1, ts) == Some(Parsed(e, rest))
    ensures Level(m, ts) == LevelLoop(m, e, rest)
    ensures Free(rest, m) ==> Level(m, ts) == Some(Parsed(e, rest))
  {
    hide UnaryTier;
  }

  /** One operand, up to the level whose operator follows. */
  lemma Reads(a: seq<Token>, x: Expr, rest: seq<Token>, k: nat)
    requires k <= 4 && Operand(a, x) && !Continues(rest) && Free(rest, k)
    ensures Level(k, a + rest) == Some(Parsed(x, rest))
  {
    LevelZero(a + rest);
    hide Level, UnaryTier;
    Climbs(a + rest, x, rest, 0, k);
  }

  lemma LoopTakes(k: nat, x: Expr, o: Arith, ts: seq<Token>, y: Expr, rest: seq<Token>)
    requires 1 <= k <= 4 && Tier(o) == k && Level(k - 1, ts) == Some(Parsed(y, rest))
    ensures LevelLoop(k, x, [Oper(o)] + ts) == LevelLoop(k, Binary(Operator.Arith(o), x, y), rest)
  {
    hide Level;
    assert ([Oper(o)] + ts)[1..] == ts;
  }

  lemma LoopLeaves(k: nat, x: Expr, rest: seq<Token>)
    requires 1 <= k <= 4 && Free(rest, k)
    ensures LevelLoop(k, x, rest) == Some(Parsed(x, rest))
  {
  }

  lemma NothingTaken(rest: seq<Token>, k: nat)
    requires Ends(rest)
    ensures Free(rest, k)
  {
  }

  lemma OperatorFollows(o: Arith, ts: seq<Token>, k: nat)
    ensures !Continues([Oper(o)] + ts) && (k < Tier(o) ==> Free([Oper(o)] + ts, k))
  {
  }

  /** One operator at the end. */
  lemma Single(b: seq<Token>, y: Expr, p: Arith, c: seq<Token>, z: Expr, rest: seq<Token>, m: nat)
    requires Operand(b, y) && Operand(c, z) && Ends(rest) && Tier(p) <= m <= 4
    ensures Level(m, b + ([Oper(p)] + (c + rest))) == Some(Parsed(Binary(Operator.Arith(p), y, z), rest))
  {
    hide Level, LevelLoop, UnaryTier, Operand, Ends;
    var k := Tier(p);
    var ts, e := [Oper(p)] + (c + rest), Binary(Operator.Arith(p), y, z);
    OperatorFollows(p, c + rest, k - 1);
    NothingTaken(rest, k);
    NothingTaken(rest, k - 1);
    NothingTaken(rest, m);
    EndsHere(rest);
    Reads(c, z, rest, k - 1);
    Reads(b, y, ts, k - 1);
    OneUp(b + ts, y, ts, k);
    LoopTakes(k, y, p, c + rest, z, rest);
    LoopLeaves(k, e, rest);
    Climbs(b + ts, e, rest, k, m);
  }

  lemma EndsHere(rest: seq<Token>)
    requires Ends(rest)
    ensures !Continues(rest)
  {
  }

  lemma GroupOf(p: Arith, i: nat)
    requires i < |GROUPS|
    ensures p in GROUPS[i] <==> Tier(p) == i + 1
  {
    assert GROUPS[0] == {Mul, Div, Mod} && GROUPS[1] == {Add, Sub} && GROUPS[2] == {Equ, Neq} && GROUPS[3] == {Lt, Gt, Lte, Gte};
  }

  lemma TiersAreGroups(p: Arith, o: Arith)
    ensures Earlier(p, o) <==> Tier(p) < Tier(o)
    ensures 1 <= Tier(p) <= 4 && 1 <= Tier(o) <= 4
  {
    assert 1 <= Tier(p) <= 4 && 1 <= Tier(o) <= 4;
    assert |GROUPS| == 4;
    hide Tier, GROUPS;
    forall i | 0 <= i < 4 ensures (p in GROUPS[i] <==> Tier(p) == i + 1) && (o in GROUPS[i] <==> Tier(o) == i + 1) {
      GroupOf(p, i);
      GroupOf(o, i);
    }
    if Tier(p) < Tier(o) {
      assert p in GROUPS[Tier(p) - 1] && o in GROUPS[Tier(o) - 1];
    }
  }

  /** Of two operators the second takes the middle operand exactly if its group is the stronger
      one; otherwise, in one group too, the first does. */
  lemma PrecedenceExactly(
    a: seq<Token>, x: Expr, o: Arith, b: seq<Token>, y: Expr, p: Arith, c: seq<Token>, z: Expr, rest: seq<Token>)
    requires Operand(a, x) && Operand(b, y) && Operand(c, z) && Ends(rest)
    ensures var ts := a + ([Oper(o)] + (b + ([Oper(p)] + (c + rest))));
            var first := Binary(Operator.Arith(p), Binary(Operator.Arith(o), x, y), z);
            var second := Binary(Operator.Arith(o), x, Binary(Operator.Arith(p), y, z));
            Level(4, ts) == Some(Parsed(if Earlier(p, o) then second else first, rest))
  {
    hide Level, LevelLoop, UnaryTier, Operand, Ends, Earlier;
    TiersAreGroups(p, o);
    var k, m := Tier(o), Tier(p);
    var tail := [Oper(p)] + (c + rest);
    var ts := [Oper(o)] + (b + tail);
    OperatorFollows(o, b + tail, k - 1);
    Reads(a, x, ts, k - 1);
    OneUp(a + ts, x, ts, k);
    NothingTaken(rest, 4);
    if Earlier(p, o) {
      SecondFirst(a, x, o, b, y, p, c, z, rest);
    } else {
      FirstFirst(a, x, o, b, y, p, c, z, rest);
    }
  }

  lemma SecondFirst(
    a: seq<Token>, x: Expr, o: Arith, b: seq<Token>, y: Expr, p: Arith, c: seq<Token>, z: Expr, rest: seq<Token>)
    requires Operand(b, y) && Operand(c, z) && Ends(rest) && 1 <= Tier(p) < Tier(o) <= 4
    requires var ts := [Oper(o)] + (b + ([Oper(p)] + (c + rest))); Level(Tier(o), a + ts) == LevelLoop(Tier(o), x, ts)
    ensures var e := Binary(Operator.Arith(o), x, Binary(Operator.Arith(p), y, z));
            Level(4, a + ([Oper(o)] + (b + ([Oper(p)] + (c + rest))))) == Some(Parsed(e, rest))
  {
    hide Level, LevelLoop, UnaryTier, Operand, Ends;
    var k, tail := Tier(o), [Oper(p)] + (c + rest);
    var inner := Binary(Operator.Arith(p), y, z);
    Single(b, y, p, c, z, rest, k - 1);
    LoopTakes(k, x, o, b + tail, inner, rest);
    NothingTaken(rest, k);
    NothingTaken(rest, 4);
    LoopLeaves(k, Binary(Operator.Arith(o), x, inner), rest);
    Climbs(a + ([Oper(o)] + (b + tail)), Binary(Operator.Arith(o), x, inner), rest, k, 4);
  }

  lemma FirstFirst(
    a: seq<Token>, x: Expr, o: Arith, b: seq<Token>, y: Expr, p: Arith, c: seq<Token>, z: Expr, rest: seq<Token>)
    requires Operand(b, y) && Operand(c, z) && Ends(rest) && 1 <= Tier(o) <= Tier(p) <= 4
    requires var ts := [Oper(o)] + (b + ([Oper(p)] + (c + rest))); Level(Tier(o), a + ts) == LevelLoop(Tier(o), x, ts)
    ensures var e := Binary(Operator.Arith(p), Binary(Operator.Arith(o), x, y), z);
            Level(4, a + ([Oper(o)] + (b + ([Oper(p)] + (c + rest))))) == Some(Parsed(e, rest))
  {
    hide Level, LevelLoop, UnaryTier, Operand, Ends;
    var k, m, tail := Tier(o), Tier(p), [Oper(p)] + (c + rest);
    var left := Binary(Operator.Arith(o), x, y);
    var e, ts := Binary(Operator.Arith(p), left, z), a + ([Oper(o)] + (b + tail));
    OperatorFollows(p, c + rest, k - 1);
    OperatorFollows(p, c + rest, m - 1);
    EndsHere(rest);
    Reads(b, y, tail, k - 1);
    LoopTakes(k, x, o, b + tail, y, tail);
    NothingTaken(rest, m - 1);
    NothingTaken(rest, m);
    NothingTaken(rest, 4);
    Reads(c, z, rest, m - 1);
    if k < m {
      OperatorFollows(p, c + rest, k);
      LoopLeaves(k, left, tail);
      Climbs(ts, left, tail, k, m - 1);
      OneUp(ts, left, tail, m);
    }
    LoopTakes(m, left, p, c + rest, z, rest);
    LoopLeaves(m, e, rest);
    Climbs(ts, e, rest, m, 4);
  }
}
