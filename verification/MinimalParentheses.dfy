/** The printed form of an expression has no parentheses to spare: no tokens that are read as the
    same expression are fewer. */
module MinimalParentheses {
  import opened Values
  import opened Syntax
  import opened ExprLowering
  import opened ExpressionGrammar

  /** What a successful parse has taken is enough to print the result at that level. */
  ghost predicate Covers(level: nat, r: Option<Parsed>, ts: seq<Token>) {
    r.Some? ==> Printable(r.value.expr) && |Print(level, r.value.expr)| <= |ts| - |r.value.rest|
  }

  /** Where a dot or call parentheses follow, the result can be printed as a head. */
  ghost predicate CoversHead(r: Option<Parsed>, ts: seq<Token>) {
    r.Some? && Continues(r.value.rest) ==> Printable(r.value.expr) && |PrintHead(r.value.expr)| <= |ts| - |r.value.rest|
  }

  ghost predicate CoversList(level: nat, r: Option<ParsedList>, size: int) {
    r.Some? ==> AllPrintable(r.value.exprs) && |PrintList(level, r.value.exprs)| + 1 + |r.value.rest| <= size
  }

  lemma WeakerShorter(e: Expr, level: nat, level': nat)
    requires Printable(e) && level <= level'
    ensures |Print(level', e)| <= |Print(level, e)| && |PrintHead(e)| <= |Print(0, e)|
  {
    hide Form;
  }

  lemma ParensCover(e: Expr)
    requires Printable(e)
    ensures |Print(0, e)| <= |Print(6, e)| + 2
  {
    hide Form;
  }

  lemma {:induction false} PrimaryCovers(ts: seq<Token>)
    ensures Covers(0, Primary(ts), ts)
    decreases |ts|, 0
  {
    hide Level, Items, AllPrintable, Print, PrintList;
    if ts != [] {
      match ts[0]
      case Lit(kind, lexeme) => LiteralLength(kind, lexeme);
      case OpenParen =>
        LevelCovers(4, ts[1..]);
        if Primary(ts).Some? {
          ParensCover(Primary(ts).value.expr);
        }
      case OpenBrace =>
        ItemsCover(ts[1..], CloseBrace);
        if Primary(ts).Some? {
          SequenceLength(Items(ts[1..], CloseBrace).value.exprs, false);
        }
      case OpenBracket =>
        ItemsCover(ts[1..], CloseBracket);
        if Primary(ts).Some? {
          SequenceLength(Items(ts[1..], CloseBracket).value.exprs, true);
        }
      case _ =>
    }
  }

  lemma LiteralLength(kind: TokenKind, lexeme: string)
    ensures Printable(Literal(kind, lexeme)) && |Print(0, Literal(kind, lexeme))| == 1
  {
  }

  lemma SequenceLength(items: seq<Expr>, isTuple: bool)
    requires AllPrintable(items)
    ensures Printable(Sequence(items, isTuple)) && |Print(0, Sequence(items, isTuple))| == |PrintList(0, items)| + 2
  {
    hide PrintList, AllPrintable;
  }

  /** One more item takes its own tokens and at most a comma. */
  lemma {:induction false} PrintMoreAppend(level: nat, es: seq<Expr>, e: Expr)
    requires AllPrintable(es) && Printable(e)
    ensures AllPrintable(es + [e]) && |PrintMore(level, es + [e])| == |PrintMore(level, es)| + 1 + |Print(level, e)|
  {
    hide Print, Printable;
    if es == [] {
      assert [e][1..] == [] && [] + [e] == [e];
    } else {
      PrintMoreAppend(level, es[1..], e);
      assert (es + [e])[1..] == es[1..] + [e];
    }
  }

  lemma PrintListAppend(level: nat, es: seq<Expr>, e: Expr)
    requires AllPrintable(es) && Printable(e)
    ensures AllPrintable(es + [e]) && |PrintList(level, es + [e])| <= |PrintList(level, es)| + 1 + |Print(level, e)|
    ensures es == [] ==> |PrintList(level, es + [e])| <= |Print(level, e)|
  {
    hide Print, Printable;
    if es == [] {
      assert [e][1..] == [] && [] + [e] == [e];
    } else {
      PrintMoreAppend(level, es[1..], e);
      assert (es + [e])[1..] == es[1..] + [e];
    }
  }

  lemma {:induction false} ItemsCover(ts: seq<Token>, close: Token)
    ensures CoversList(0, Items(ts, close), |ts|)
    decreases |ts|, 1
  {
    hide Primary, MoreItems, Printable, Print, PrintList, AllPrintable;
    NoneListed(0);
    if Starts(ts, close) {
      MoreItemsCover([], ts, close, |ts|);
    } else {
      PrimaryCovers(ts);
      if Primary(ts).Some? {
        var p := Primary(ts).value;
        PrintListAppend(0, [], p.expr);
        assert [] + [p.expr] == [p.expr];
        MoreItemsCover([p.expr], p.rest, close, |ts|);
      }
    }
  }

  lemma NoneListed(level: nat)
    ensures AllPrintable([]) && PrintList(level, []) == []
  {
  }

  lemma {:induction false} MoreItemsCover(done: seq<Expr>, ts: seq<Token>, close: Token, size: int)
    requires AllPrintable(done) && |PrintList(0, done)| + |ts| <= size
    ensures CoversList(0, MoreItems(done, ts, close), size)
    decreases |ts|, 0
  {
    hide Primary, Printable, Print, PrintList, AllPrintable;
    if Starts(ts, Comma) {
      PrimaryCovers(ts[1..]);
      if Primary(ts[1..]).Some? {
        var p := Primary(ts[1..]).value;
        PrintListAppend(0, done, p.expr);
        MoreItemsCover(done + [p.expr], p.rest, close, size);
      }
    }
  }

  lemma {:induction false} LhsCovers(ts: seq<Token>)
    ensures Covers(1, Lhs(ts), ts) && CoversHead(Lhs(ts), ts) && (Lhs(ts).Some? ==> !Starts(Lhs(ts).value.rest, Dot))
    decreases |ts|, 1
  {
    hide Primary, LhsLoop, Printable, Print, PrintHead;
    PrimaryCovers(ts);
    if Primary(ts).Some? {
      var p := Primary(ts).value;
      WeakerShorter(p.expr, 0, 1);
      LhsLoopCovers(p.expr, p.rest, ts);
    }
  }

  /** After an access that is not a call no dot follows: the right side has taken it. */
  lemma {:induction false} LhsLoopCovers(lhs: Expr, ts: seq<Token>, all: seq<Token>)
    requires Printable(lhs) && |Print(1, lhs)| <= |all| - |ts| && (Continues(ts) ==> |PrintHead(lhs)| <= |all| - |ts|)
    ensures Covers(1, LhsLoop(lhs, ts), all) && CoversHead(LhsLoop(lhs, ts), all)
    ensures LhsLoop(lhs, ts).Some? ==> !Starts(LhsLoop(lhs, ts).value.rest, Dot)
    decreases |ts|, 0
  {
    hide CallTier, Printable, Print, PrintHead;
    if Starts(ts, Dot) {
      CallCovers(ts[1..]);
      if CallTier(ts[1..]).Some? {
        var p := CallTier(ts[1..]).value;
        AccessLength(lhs, p.expr);
        LhsLoopCovers(Binary(Access, lhs, p.expr), p.rest, all);
      }
    }
  }

  lemma AccessLength(left: Expr, right: Expr)
    requires Printable(left) && Printable(right)
    ensures var e := Binary(Access, left, right);
            && Printable(e) && |Print(1, e)| == |PrintHead(left)| + 1 + |Print(1, right)|
            && (right.Call? ==> |PrintHead(e)| == |Print(1, e)|)
  {
    var e := Binary(Access, left, right);
    assert Home(e) == 1;
  }

  lemma {:induction false} CallCovers(ts: seq<Token>)
    ensures Covers(1, CallTier(ts), ts)
    ensures CallTier(ts).Some? && Continues(CallTier(ts).value.rest) ==> CallTier(ts).value.expr.Call?
    decreases |ts|, 2
  {
    hide Lhs, Arguments, Printable, AllPrintable, Print, PrintHead, PrintList;
    LhsCovers(ts);
    if CallTier(ts).Some? {
      var p := Lhs(ts).value;
      if Starts(p.rest, OpenParen) {
        ArgumentsCover(p.rest[1..]);
        CallLength(p.expr, Arguments(p.rest[1..]).value.exprs);
      }
    }
  }

  lemma CallLength(callee: Expr, args: seq<Expr>)
    requires Printable(callee) && AllPrintable(args)
    ensures var e := Expr.Call(callee, args);
            Printable(e) && |Print(1, e)| == |PrintHead(callee)| + 1 + |PrintList(6, args)| + 1
  {
    hide PrintHead, PrintList, AllPrintable;
  }

  lemma {:induction false} ArgumentsCover(ts: seq<Token>)
    ensures CoversList(6, Arguments(ts), |ts|)
    decreases |ts|, 9
  {
    hide Level, MoreArguments, Printable, Print, PrintList, AllPrintable;
    NoneListed(6);
    if Starts(ts, CloseParen) {
      MoreArgumentsCover([], ts, |ts|);
    } else {
      LevelCovers(4, ts);
      if Level(4, ts).Some? {
        var p := Level(4, ts).value;
        PrintListAppend(6, [], p.expr);
        assert [] + [p.expr] == [p.expr];
        MoreArgumentsCover([p.expr], p.rest, |ts|);
      }
    }
  }

  lemma {:induction false} MoreArgumentsCover(done: seq<Expr>, ts: seq<Token>, size: int)
    requires AllPrintable(done) && |PrintList(6, done)| + |ts| <= size
    ensures CoversList(6, MoreArguments(done, ts), size)
    decreases |ts|, 0
  {
    hide Level, Printable, Print, PrintList, AllPrintable;
    if Starts(ts, Comma) {
      LevelCovers(4, ts[1..]);
      if Level(4, ts[1..]).Some? {
        var p := Level(4, ts[1..]).value;
        PrintListAppend(6, done, p.expr);
        MoreArgumentsCover(done + [p.expr], p.rest, size);
      }
    }
  }

  lemma {:induction false} UnaryCovers(ts: seq<Token>)
    ensures Covers(2, UnaryTier(ts), ts)
    decreases |ts|, 3
  {
    hide CallTier, Printable, Print;
    if Starts(ts, Oper(Sub)) {
      CallCovers(ts[1..]);
      if CallTier(ts[1..]).Some? {
        NegationLength(CallTier(ts[1..]).value.expr);
      }
    } else {
      CallCovers(ts);
      if CallTier(ts).Some? {
        WeakerShorter(CallTier(ts).value.expr, 1, 2);
      }
    }
  }

  lemma NegationLength(inner: Expr)
    requires Printable(inner)
    ensures Printable(Unary(Negate, inner)) && |Print(2, Unary(Negate, inner))| == 1 + |Print(1, inner)|
  {
  }

  lemma {:induction false} LevelCovers(k: nat, ts: seq<Token>)
    requires k <= 4
    ensures Covers(2 + k, Level(k, ts), ts)
    decreases |ts|, 4 + k
  {
    hide UnaryTier, LevelLoop, Printable, Print;
    if k == 0 {
      UnaryCovers(ts);
    } else {
      LevelCovers(k - 1, ts);
      if Level(k - 1, ts).Some? {
        var p := Level(k - 1, ts).value;
        WeakerShorter(p.expr, 1 + k, 2 + k);
        LevelLoopCovers(k, p.expr, p.rest, ts);
      }
    }
  }

  lemma {:induction false} LevelLoopCovers(k: nat, left: Expr, ts: seq<Token>, all: seq<Token>)
    requires 1 <= k <= 4 && Printable(left) && |Print(2 + k, left)| <= |all| - |ts|
    ensures Covers(2 + k, LevelLoop(k, left, ts), all)
    decreases |ts|, 0
  {
    hide Level, Printable, Print;
    if StartsTier(ts, k) {
      LevelCovers(k - 1, ts[1..]);
      if Level(k - 1, ts[1..]).Some? {
        var p := Level(k - 1, ts[1..]).value;
        TierLength(k, ts[0].op, left, p.expr);
        LevelLoopCovers(k, Binary(Operator.Arith(ts[0].op), left, p.expr), p.rest, all);
      }
    }
  }

  lemma TierLength(k: nat, op: Arith, left: Expr, right: Expr)
    requires Printable(left) && Printable(right) && Tier(op) == k
    ensures var e := Binary(Operator.Arith(op), left, right);
            Printable(e) && |Print(2 + k, e)| == |Print(2 + k, left)| + 1 + |Print(1 + k, right)|
  {
  }

  /** Tokens read as an expression are at least as many as it is printed with. */
  lemma PrintShortest(ts: seq<Token>)
    requires Level(4, ts).Some?
    ensures Printable(Level(4, ts).value.expr)
    ensures |Print(6, Level(4, ts).value.expr)| <= |ts| - |Level(4, ts).value.rest|
  {
    hide Level, Printable, Print;
    LevelCovers(4, ts);
  }
}
