/** The parser neither drops nor invents a token: apart from parentheses, an expression is printed
    with exactly the tokens it was read from, in order. */
module KeptTokens {
  import opened Values
  import opened Syntax
  import opened ExprLowering
  import opened ExpressionGrammar

  predicate IsParen(t: Token) {
    t == OpenParen || t == CloseParen
  }

  /** All tokens but parentheses. */
  function Core(ts: seq<Token>): seq<Token> {
    if ts == [] then [] else (if IsParen(ts[0]) then [] else [ts[0]]) + Core(ts[1..])
  }

  lemma CoreStep(ts: seq<Token>)
    ensures Core(ts) == if ts == [] then [] else (if IsParen(ts[0]) then [] else [ts[0]]) + Core(ts[1..])
  {
  }

  lemma {:induction false} CoreConcat(a: seq<Token>, b: seq<Token>)
    ensures Core(a + b) == Core(a) + Core(b)
  {
    hide Core, IsParen;
    CoreStep(a);
    if a == [] {
      assert a + b == b && [] + Core(b) == Core(b);
    } else {
      CoreConcat(a[1..], b);
      assert (a + b)[0] == a[0] && (a + b)[1..] == a[1..] + b;
      CoreStep(a + b);
      Assoc(if IsParen(a[0]) then [] else [a[0]], Core(a[1..]), Core(b));
    }
  }

  lemma Assoc(a: seq<Token>, b: seq<Token>, c: seq<Token>)
    ensures a + (b + c) == a + b + c
  {
  }

  lemma CoreFirst(ts: seq<Token>)
    requires ts != []
    ensures Core(ts) == Core([ts[0]]) + Core(ts[1..])
  {
    CoreConcat([ts[0]], ts[1..]);
    assert [ts[0]] + ts[1..] == ts;
  }

  lemma CoreOne(t: Token)
    ensures Core([t]) == if IsParen(t) then [] else [t]
  {
    assert [t][1..] == [];
  }

  // ---------------------------------------------------------------- printed expressions

  lemma CoreOfPrint(e: Expr, level: nat)
    requires Printable(e)
    ensures Core(Print(level, e)) == Core(PrintHead(e)) == Core(Form(e))
  {
    hide Form;
    CoreConcat([OpenParen], Form(e));
    CoreConcat([OpenParen] + Form(e), [CloseParen]);
    CoreOne(OpenParen);
    CoreOne(CloseParen);
    hide Core;
    assert [] + Core(Form(e)) + [] == Core(Form(e));
  }

  /** Two printed parts with a token between. */
  lemma CoreBetween(a: seq<Token>, t: Token, b: seq<Token>)
    ensures Core(a + [t] + b) == Core(a) + Core([t]) + Core(b)
  {
    CoreConcat(a, [t]);
    CoreConcat(a + [t], b);
  }

  lemma CoreOfBinary(bop: Operator, left: Expr, right: Expr)
    requires (bop.Arith? || bop == Access) && Printable(left) && Printable(right)
    ensures var e := Binary(bop, left, right);
            Printable(e) && Core(Form(e)) == Core(Form(left)) + [if bop.Arith? then Oper(bop.op) else Dot] + Core(Form(right))
  {
    var e, t := Binary(bop, left, right), if bop.Arith? then Oper(bop.op) else Dot;
    CoreOne(t);
    if bop.Arith? {
      CoreBetween(Print(2 + Tier(bop.op), left), t, Print(1 + Tier(bop.op), right));
      CoreOfPrint(left, 2 + Tier(bop.op));
      CoreOfPrint(right, 1 + Tier(bop.op));
    } else {
      CoreBetween(PrintHead(left), t, Print(1, right));
      CoreOfPrint(left, 0);
      CoreOfPrint(right, 1);
    }
    hide Core, Print, PrintHead;
  }

  lemma CoreOfUnary(inner: Expr)
    requires Printable(inner)
    ensures Printable(Unary(Negate, inner)) && Core(Form(Unary(Negate, inner))) == [Oper(Sub)] + Core(Form(inner))
  {
    CoreConcat([Oper(Sub)], Print(1, inner));
    CoreOne(Oper(Sub));
    CoreOfPrint(inner, 1);
    hide Core, Print;
  }

  lemma CoreOfCall(callee: Expr, args: seq<Expr>)
    requires Printable(callee) && AllPrintable(args)
    ensures var e := Expr.Call(callee, args); Printable(e) && Core(Form(e)) == Core(Form(callee)) + Core(PrintList(6, args))
  {
    var head, list := PrintHead(callee), PrintList(6, args);
    CoreBetween(head, OpenParen, list);
    CoreConcat(head + [OpenParen] + list, [CloseParen]);
    CoreOne(OpenParen);
    CoreOne(CloseParen);
    CoreOfPrint(callee, 0);
    hide Core, PrintHead, PrintList, AllPrintable;
    assert Core(head) + [] + Core(list) + [] == Core(head) + Core(list);
  }

  function Opening(isTuple: bool): Token { if isTuple then OpenBracket else OpenBrace }

  function Closing(isTuple: bool): Token { if isTuple then CloseBracket else CloseBrace }

  lemma CoreOfSequence(items: seq<Expr>, isTuple: bool)
    requires AllPrintable(items)
    ensures var e := Sequence(items, isTuple);
            Printable(e) && Core(Form(e)) == [Opening(isTuple)] + Core(PrintList(0, items)) + [Closing(isTuple)]
  {
    CoreConcat([Opening(isTuple)], PrintList(0, items));
    CoreConcat([Opening(isTuple)] + PrintList(0, items), [Closing(isTuple)]);
    CoreOne(Opening(isTuple));
    CoreOne(Closing(isTuple));
    hide Core, PrintList, AllPrintable;
  }

  lemma {:induction false} CoreOfMore(level: nat, es: seq<Expr>, e: Expr)
    requires AllPrintable(es) && Printable(e)
    ensures AllPrintable(es + [e]) && Core(PrintMore(level, es + [e])) == Core(PrintMore(level, es)) + [Comma] + Core(Form(e))
    decreases |es|
  {
    hide Print, PrintMore, Form, Printable, Core;
    if es == [] {
      assert [e] + [] == [e] && es + [e] == [e];
      FirstMore(level, e, []);
      NoMore(level);
      assert [] + [Comma] + Core(Form(e)) == [Comma] + Core(Form(e)) + [];
    } else {
      CoreOfMore(level, es[1..], e);
      assert (es + [e])[0] == es[0] && (es + [e])[1..] == es[1..] + [e];
      FirstMore(level, es[0], es[1..]);
      FirstMore(level, es[0], es[1..] + [e]);
      assert [es[0]] + es[1..] == es && [es[0]] + (es[1..] + [e]) == es + [e];
    }
  }

  lemma FirstMore(level: nat, e: Expr, es: seq<Expr>)
    requires Printable(e) && AllPrintable(es)
    ensures AllPrintable([e] + es) && Core(PrintMore(level, [e] + es)) == [Comma] + Core(Form(e)) + Core(PrintMore(level, es))
  {
    hide Print, Form, Printable;
    assert ([e] + es)[1..] == es;
    CoreConcat([Comma] + Print(level, e), PrintMore(level, es));
    CoreConcat([Comma], Print(level, e));
    CoreOne(Comma);
    CoreOfPrint(e, level);
    hide Core;
  }

  lemma CoreOfList(level: nat, es: seq<Expr>, e: Expr)
    requires AllPrintable(es) && Printable(e)
    ensures AllPrintable(es + [e])
    ensures Core(PrintList(level, es + [e])) == Core(PrintList(level, es)) + (if es == [] then [] else [Comma]) + Core(Form(e))
  {
    hide Print, Form, Printable, Core, PrintMore;
    if es == [] {
      assert [e][1..] == [] && [] + [e] == [e];
      CoreOfPrint(e, level);
      NoMore(level);
      assert Print(level, e) + [] == Print(level, e) && [] + [] + Core(Form(e)) == Core(Form(e));
    } else {
      CoreOfMore(level, es[1..], e);
      assert (es + [e])[1..] == es[1..] + [e] && (es + [e])[0] == es[0];
      CoreConcat(Print(level, es[0]), PrintMore(level, es[1..]));
      CoreConcat(Print(level, es[0]), PrintMore(level, es[1..] + [e]));
    }
  }

  lemma NoMore(level: nat)
    ensures AllPrintable([]) && PrintMore(level, []) == [] && Core([]) == []
  {
  }

  // ---------------------------------------------------------------- what parsing takes

  /** The tokens are those of the result and those left. */
  ghost predicate Keeps(r: Option<Parsed>, all: seq<Token>) {
    r.Some? ==> Printable(r.value.expr) && all == Core(Form(r.value.expr)) + Core(r.value.rest)
  }

  ghost predicate KeepsList(level: nat, r: Option<ParsedList>, close: Token, all: seq<Token>) {
    r.Some? ==> AllPrintable(r.value.exprs) && all == Core(PrintList(level, r.value.exprs)) + Core([close]) + Core(r.value.rest)
  }

  lemma {:induction false} PrimaryKeeps(ts: seq<Token>)
    ensures Keeps(Primary(ts), Core(ts))
    decreases |ts|, 0
  {
    hide Level, Items, AllPrintable, Form, PrintList, Core;
    if ts != [] {
      CoreFirst(ts);
      CoreOne(ts[0]);
      match ts[0]
      case Lit(kind, lexeme) => LiteralForm(kind, lexeme);
      case OpenParen =>
        LevelKeeps(4, ts[1..]);
        if Primary(ts).Some? {
          var after := Level(4, ts[1..]).value.rest;
          CoreFirst(after);
          CoreOne(CloseParen);
          assert [] + Core(after[1..]) == Core(after[1..]);
        }
      case OpenBrace => SequenceKeeps(ts, false);
      case OpenBracket => SequenceKeeps(ts, true);
      case _ =>
    }
  }

  lemma LiteralForm(kind: TokenKind, lexeme: string)
    ensures Printable(Literal(kind, lexeme)) && Core(Form(Literal(kind, lexeme))) == [Lit(kind, lexeme)]
  {
    CoreOne(Lit(kind, lexeme));
  }

  lemma {:induction false} SequenceKeeps(ts: seq<Token>, isTuple: bool)
    requires Starts(ts, Opening(isTuple))
    ensures Keeps(Primary(ts), Core(ts))
    decreases |ts|, 0, 0
  {
    hide Items, AllPrintable, Form, PrintList, Core, Level;
    CoreFirst(ts);
    CoreOne(ts[0]);
    ItemsKeep(ts[1..], Closing(isTuple));
    if Primary(ts).Some? {
      var r := Items(ts[1..], Closing(isTuple)).value;
      CoreOfSequence(r.exprs, isTuple);
      CoreOne(Closing(isTuple));
    }
  }

  lemma NothingListed(level: nat, ts: seq<Token>)
    ensures AllPrintable([]) && Core(PrintList(level, [])) + Core(ts) == Core(ts)
  {
  }

  lemma {:induction false} ItemsKeep(ts: seq<Token>, close: Token)
    requires close in {CloseBrace, CloseBracket}
    ensures KeepsList(0, Items(ts, close), close, Core(ts))
    decreases |ts|, 1
  {
    hide Primary, MoreItems, Printable, Form, PrintList, AllPrintable, Core;
    NothingListed(0, ts);
    if Starts(ts, close) {
      MoreItemsKeep([], ts, close, Core(ts));
    } else {
      PrimaryKeeps(ts);
      if Primary(ts).Some? {
        var p := Primary(ts).value;
        OneListed(0, p.expr);
        MoreItemsKeep([p.expr], p.rest, close, Core(ts));
      }
    }
  }

  lemma OneListed(level: nat, e: Expr)
    requires Printable(e)
    ensures AllPrintable([e]) && Core(PrintList(level, [e])) == Core(Form(e))
  {
    hide Form, Printable, Print;
    CoreOfList(level, [], e);
    assert [] + [e] == [e];
    NothingListed(level, Form(e));
    assert Core(PrintList(level, [])) + [] + Core(Form(e)) == Core(Form(e));
  }

  lemma {:induction false} MoreItemsKeep(done: seq<Expr>, ts: seq<Token>, close: Token, all: seq<Token>)
    requires AllPrintable(done) && close in {CloseBrace, CloseBracket} && (done == [] ==> !Starts(ts, Comma))
    requires all == Core(PrintList(0, done)) + Core(ts)
    ensures KeepsList(0, MoreItems(done, ts, close), close, all)
    decreases |ts|, 0
  {
    hide Primary, Printable, Form, PrintList, AllPrintable, Core;
    if ts != [] {
      CoreFirst(ts);
      CoreOne(ts[0]);
    }
    if Starts(ts, Comma) {
      PrimaryKeeps(ts[1..]);
      if Primary(ts[1..]).Some? {
        var p := Primary(ts[1..]).value;
        CoreOfList(0, done, p.expr);
        MoreItemsKeep(done + [p.expr], p.rest, close, all);
      }
    }
  }

  lemma {:induction false} LhsKeeps(ts: seq<Token>)
    ensures Keeps(Lhs(ts), Core(ts))
    decreases |ts|, 1
  {
    hide Primary, LhsLoop, Printable, Form, Core;
    PrimaryKeeps(ts);
    if Primary(ts).Some? {
      LhsLoopKeeps(Primary(ts).value.expr, Primary(ts).value.rest, Core(ts));
    }
  }

  lemma {:induction false} LhsLoopKeeps(lhs: Expr, ts: seq<Token>, all: seq<Token>)
    requires Printable(lhs) && all == Core(Form(lhs)) + Core(ts)
    ensures Keeps(LhsLoop(lhs, ts), all)
    decreases |ts|, 0
  {
    hide CallTier, Printable, Form, Core;
    if Starts(ts, Dot) {
      CoreFirst(ts);
      CoreOne(Dot);
      CallKeeps(ts[1..]);
      if CallTier(ts[1..]).Some? {
        var p := CallTier(ts[1..]).value;
        CoreOfBinary(Access, lhs, p.expr);
        LhsLoopKeeps(Binary(Access, lhs, p.expr), p.rest, all);
      }
    }
  }

  lemma {:induction false} CallKeeps(ts: seq<Token>)
    ensures Keeps(CallTier(ts), Core(ts))
    decreases |ts|, 2
  {
    hide Lhs, Arguments, Printable, AllPrintable, Form, PrintList, Core;
    LhsKeeps(ts);
    if CallTier(ts).Some? {
      var p := Lhs(ts).value;
      if Starts(p.rest, OpenParen) {
        CoreFirst(p.rest);
        CoreOne(OpenParen);
        CoreOne(CloseParen);
        ArgumentsKeep(p.rest[1..]);
        CoreOfCall(p.expr, Arguments(p.rest[1..]).value.exprs);
        Regroup(Core(Form(p.expr)), Core(PrintList(6, Arguments(p.rest[1..]).value.exprs)), Core(Arguments(p.rest[1..]).value.rest));
      }
    }
  }

  lemma Regroup(a: seq<Token>, b: seq<Token>, c: seq<Token>)
    ensures a + ([] + (b + [] + c)) == a + b + c
  {
  }

  lemma {:induction false} ArgumentsKeep(ts: seq<Token>)
    ensures KeepsList(6, Arguments(ts), CloseParen, Core(ts))
    decreases |ts|, 9
  {
    hide Level, MoreArguments, Printable, Form, PrintList, AllPrintable, Core;
    NothingListed(6, ts);
    if Starts(ts, CloseParen) {
      MoreArgumentsKeep([], ts, Core(ts));
    } else {
      LevelKeeps(4, ts);
      if Level(4, ts).Some? {
        var p := Level(4, ts).value;
        OneListed(6, p.expr);
        MoreArgumentsKeep([p.expr], p.rest, Core(ts));
      }
    }
  }

  lemma {:induction false} MoreArgumentsKeep(done: seq<Expr>, ts: seq<Token>, all: seq<Token>)
    requires AllPrintable(done) && (done == [] ==> !Starts(ts, Comma)) && all == Core(PrintList(6, done)) + Core(ts)
    ensures KeepsList(6, MoreArguments(done, ts), CloseParen, all)
    decreases |ts|, 0
  {
    hide Level, Printable, Form, PrintList, AllPrintable, Core;
    if ts != [] {
      CoreFirst(ts);
      CoreOne(ts[0]);
    }
    if Starts(ts, Comma) {
      LevelKeeps(4, ts[1..]);
      if Level(4, ts[1..]).Some? {
        var p := Level(4, ts[1..]).value;
        CoreOfList(6, done, p.expr);
        MoreArgumentsKeep(done + [p.expr], p.rest, all);
      }
    }
  }

  lemma {:induction false} UnaryKeeps(ts: seq<Token>)
    ensures Keeps(UnaryTier(ts), Core(ts))
    decreases |ts|, 3
  {
    hide CallTier, Printable, Form, Core;
    if Starts(ts, Oper(Sub)) {
      CoreFirst(ts);
      CoreOne(Oper(Sub));
      CallKeeps(ts[1..]);
      if CallTier(ts[1..]).Some? {
        CoreOfUnary(CallTier(ts[1..]).value.expr);
      }
    } else {
      CallKeeps(ts);
    }
  }

  lemma {:induction false} LevelKeeps(k: nat, ts: seq<Token>)
    requires k <= 4
    ensures Keeps(Level(k, ts), Core(ts))
    decreases |ts|, 4 + k
  {
    hide UnaryTier, LevelLoop, Printable, Form, Core;
    if k == 0 {
      UnaryKeeps(ts);
    } else {
      LevelKeeps(k - 1, ts);
      if Level(k - 1, ts).Some? {
        LevelLoopKeeps(k, Level(k - 1, ts).value.expr, Level(k - 1, ts).value.rest, Core(ts));
      }
    }
  }

  lemma {:induction false} LevelLoopKeeps(k: nat, left: Expr, ts: seq<Token>, all: seq<Token>)
    requires 1 <= k <= 4 && Printable(left) && all == Core(Form(left)) + Core(ts)
    ensures Keeps(LevelLoop(k, left, ts), all)
    decreases |ts|, 0
  {
    hide Level, Printable, Form, Core;
    if StartsTier(ts, k) {
      CoreFirst(ts);
      CoreOne(ts[0]);
      LevelKeeps(k - 1, ts[1..]);
      if Level(k - 1, ts[1..]).Some? {
        var p, bop := Level(k - 1, ts[1..]).value, Operator.Arith(ts[0].op);
        CoreOfBinary(bop, left, p.expr);
        LevelLoopKeeps(k, Binary(bop, left, p.expr), p.rest, all);
      }
    }
  }

  /** Reading an expression and printing it changes nothing but parentheses. */
  lemma TokensKept(ts: seq<Token>)
    requires Level(4, ts).Some?
    ensures var p := Level(4, ts).value; Printable(p.expr) && Core(ts) == Core(Print(6, p.expr)) + Core(p.rest)
  {
    hide Level, Printable, Form, Print, Core;
    LevelKeeps(4, ts);
    CoreOfPrint(Level(4, ts).value.expr, 6);
  }
}
