/** The expression parser as it runs (src/frontend/parsing.cpp:76-460): recursive descent over
    a cursor, with loops that rebuild the left operand. A thrown parse error is `None`. */
module Parser {
  import opened Values
  import opened Syntax
  import opened ExprLowering
  import opened ExpressionGrammar

  class Parser {
    const input: seq<Token>
    var at: nat

    constructor (input: seq<Token>)
      ensures this.input == input && Valid() && Rest() == input
    {
      this.input := input;
      at := 0;
    }

    ghost predicate Valid()
      reads this
    {
      at <= |input|
    }

    /** The tokens from the cursor on; none left means end of input. */
    ghost function Rest(): seq<Token>
      requires Valid()
      reads this
    {
      input[at..]
    }

    method Matches(t: Token) returns (m: bool)
      requires Valid()
      ensures m == Starts(Rest(), t)
    {
      m := at < |input| && input[at] == t;
    }

    method MatchesTier(k: nat) returns (m: bool)
      requires Valid()
      ensures m == StartsTier(Rest(), k)
    {
      m := at < |input| && input[at].Oper? && Tier(input[at].op) == k;
    }

    method Consume() returns (t: Token)
      requires Valid() && Rest() != []
      modifies this
      ensures Valid() && t == old(Rest())[0] && Rest() == old(Rest())[1..]
    {
      t := input[at];
      at := at + 1;
    }

    /** Consume the expected token, or fail. */
    method Expect(t: Token) returns (ok: bool)
      requires Valid()
      modifies this
      ensures Valid() && ok == Starts(old(Rest()), t)
      ensures Rest() == if ok then old(Rest())[1..] else old(Rest())
    {
      ok := Matches(t);
      if ok {
        var _ := Consume();
      }
    }

    /** The result and the tokens left are as the grammar functions say. */
    ghost predicate Yields(r: Option<Expr>, spec: Option<Parsed>)
      reads this
    {
      Valid() && (r.Some? <==> spec.Some?) && (spec.Some? ==> r.value == spec.value.expr && Rest() == spec.value.rest)
    }

    method ParsePrimary() returns (r: Option<Expr>)
      requires Valid()
      modifies this
      ensures Yields(r, Primary(old(Rest())))
      decreases |input| - at, 1
    {
      hide Level, Items;
      if at == |input| {
        return None;
      }
      match input[at]
      case Lit(kind, lexeme) =>
        var _ := Consume();
        r := Some(Literal(kind, lexeme));
      case OpenParen =>
        var _ := Consume();
        r := ParseCompare();
        if r.Some? {
          var ok := Expect(CloseParen);
          if !ok {
            r := None;
          }
        }
      case OpenBrace => r := ParseSequence();
      case OpenBracket => r := ParseSequence();
      case _ => r := None;
    }

    /** A list in braces or a tuple in brackets. */
    method ParseSequence() returns (r: Option<Expr>)
      requires Valid() && (Starts(Rest(), OpenBrace) || Starts(Rest(), OpenBracket))
      modifies this
      ensures Yields(r, Primary(old(Rest())))
      decreases |input| - at, 0
    {
      hide Level, Primary, MoreItems;
      SequencePrimary(Rest());
      var open := Consume();
      var isTuple := open == OpenBracket;
      var close := if isTuple then CloseBracket else CloseBrace;
      ghost var ts := Rest();
      var items: seq<Expr> := [];
      var empty := Matches(close);
      if !empty {
        var item := ParsePrimary();
        if item.None? {
          return None;
        }
        items := [item.value];
      }
      var more := Matches(Comma);
      while more
        invariant Valid() && at > old(at) && more == Starts(Rest(), Comma)
        invariant Items(ts, close) == MoreItems(items, Rest(), close)
        decreases |input| - at
      {
        MoreItemsIs(items, Rest(), close);
        var _ := Consume();
        var item := ParsePrimary();
        if item.None? {
          return None;
        }
        items := items + [item.value];
        more := Matches(Comma);
      }
      MoreItemsIs(items, Rest(), close);
      var ok := Expect(close);
      if !ok {
        return None;
      }
      r := Some(Sequence(items, isTuple));
    }

    method ParseLhs() returns (r: Option<Expr>)
      requires Valid()
      modifies this
      ensures Yields(r, Lhs(old(Rest())))
      decreases |input| - at, 2
    {
      hide Primary, CallTier;
      ghost var ts := Rest();
      r := ParsePrimary();
      if r.None? {
        return;
      }
      var dot := Matches(Dot);
      while dot
        invariant Valid() && at > old(at) && r.Some? && dot == Starts(Rest(), Dot)
        invariant Lhs(ts) == LhsLoop(r.value, Rest())
        decreases |input| - at
      {
        var _ := Consume();
        var rhs := ParseCall();
        if rhs.None? {
          return None;
        }
        r := Some(Binary(Access, r.value, rhs.value));
        dot := Matches(Dot);
      }
    }

    method ParseCall() returns (r: Option<Expr>)
      requires Valid()
      modifies this
      ensures Yields(r, CallTier(old(Rest())))
      decreases |input| - at, 3
    {
      hide Lhs, Level, MoreArguments;
      r := ParseLhs();
      if r.None? {
        return;
      }
      var isCall := Matches(OpenParen);
      if !isCall {
        return;
      }
      var _ := Consume();
      ghost var ts := Rest();
      var args: seq<Expr> := [];
      var empty := Matches(CloseParen);
      if !empty {
        var arg := ParseCompare();
        if arg.None? {
          return None;
        }
        args := [arg.value];
      }
      var more := Matches(Comma);
      while more
        invariant Valid() && at > old(at) && more == Starts(Rest(), Comma)
        invariant Arguments(ts) == MoreArguments(args, Rest())
        decreases |input| - at
      {
        MoreArgumentsIs(args, Rest());
        var _ := Consume();
        var arg := ParseCompare();
        if arg.None? {
          return None;
        }
        args := args + [arg.value];
        more := Matches(Comma);
      }
      MoreArgumentsIs(args, Rest());
      var ok := Expect(CloseParen);
      if !ok {
        return None;
      }
      r := Some(Expr.Call(r.value, args));
    }

    method ParseUnary() returns (r: Option<Expr>)
      requires Valid()
      modifies this
      ensures Yields(r, UnaryTier(old(Rest())))
      decreases |input| - at, 4
    {
      hide CallTier;
      var negated := Expect(Oper(Sub));
      r := ParseCall();
      if r.Some? && negated {
        r := Some(Unary(Negate, r.value));
      }
    }

    method ParseFactor() returns (r: Option<Expr>)
      requires Valid()
      modifies this
      ensures Yields(r, Level(1, old(Rest())))
      decreases |input| - at, 5
    {
      hide UnaryTier;
      ghost var ts := Rest();
      r := ParseUnary();
      if r.None? {
        return;
      }
      var more := MatchesTier(1);
      while more
        invariant Valid() && at > old(at) && r.Some? && more == StartsTier(Rest(), 1)
        invariant Level(1, ts) == LevelLoop(1, r.value, Rest())
        decreases |input| - at
      {
        var t := Consume();
        var other := ParseUnary();
        if other.None? {
          return None;
        }
        r := Some(Binary(Operator.Arith(t.op), r.value, other.value));
        more := MatchesTier(1);
      }
    }

    method ParseTerm() returns (r: Option<Expr>)
      requires Valid()
      modifies this
      ensures Yields(r, Level(2, old(Rest())))
      decreases |input| - at, 6
    {
      hide Level;
      ghost var ts := Rest();
      LevelIs(2, ts);
      r := ParseFactor();
      if r.None? {
        return;
      }
      var more := MatchesTier(2);
      while more
        invariant Valid() && at > old(at) && r.Some? && more == StartsTier(Rest(), 2)
        invariant Level(2, ts) == LevelLoop(2, r.value, Rest())
        decreases |input| - at
      {
        var t := Consume();
        var other := ParseFactor();
        if other.None? {
          return None;
        }
        r := Some(Binary(Operator.Arith(t.op), r.value, other.value));
        more := MatchesTier(2);
      }
    }

    method ParseEquality() returns (r: Option<Expr>)
      requires Valid()
      modifies this
      ensures Yields(r, Level(3, old(Rest())))
      decreases |input| - at, 7
    {
      hide Level;
      ghost var ts := Rest();
      LevelIs(3, ts);
      r := ParseTerm();
      if r.None? {
        return;
      }
      var more := MatchesTier(3);
      while more
        invariant Valid() && at > old(at) && r.Some? && more == StartsTier(Rest(), 3)
        invariant Level(3, ts) == LevelLoop(3, r.value, Rest())
        decreases |input| - at
      {
        var t := Consume();
        var other := ParseTerm();
        if other.None? {
          return None;
        }
        r := Some(Binary(Operator.Arith(t.op), r.value, other.value));
        more := MatchesTier(3);
      }
    }

    method ParseCompare() returns (r: Option<Expr>)
      requires Valid()
      modifies this
      ensures Yields(r, Level(4, old(Rest())))
      decreases |input| - at, 8
    {
      hide Level;
      ghost var ts := Rest();
      LevelIs(4, ts);
      r := ParseEquality();
      if r.None? {
        return;
      }
      var more := MatchesTier(4);
      while more
        invariant Valid() && at > old(at) && r.Some? && more == StartsTier(Rest(), 4)
        invariant Level(4, ts) == LevelLoop(4, r.value, Rest())
        decreases |input| - at
      {
        var t := Consume();
        var other := ParseEquality();
        if other.None? {
          return None;
        }
        r := Some(Binary(Operator.Arith(t.op), r.value, other.value));
        more := MatchesTier(4);
      }
    }

    method ParseAssign() returns (r: Option<Expr>)
      requires Valid()
      modifies this
      ensures Yields(r, AssignTier(old(Rest())))
    {
      hide UnaryTier, Level;
      r := ParseUnary();
      if r.None? {
        return;
      }
      var assigns := Expect(Equals);
      if assigns {
        var value := ParseCompare();
        if value.None? {
          return None;
        }
        r := Some(Assign(r.value, value.value));
      }
    }
  }

  lemma SequencePrimary(ts: seq<Token>)
    requires Starts(ts, OpenBrace) || Starts(ts, OpenBracket)
    ensures var isTuple := ts[0] == OpenBracket;
            Primary(ts) == match Items(ts[1..], if isTuple then CloseBracket else CloseBrace)
                           case None => None
                           case Some(p) => Some(Parsed(Sequence(p.exprs, isTuple), p.rest))
  {
  }

  lemma MoreItemsIs(done: seq<Expr>, ts: seq<Token>, close: Token)
    ensures MoreItems(done, ts, close) ==
            if Starts(ts, Comma) then
              match Primary(ts[1..])
              case None => None
              case Some(p) => MoreItems(done + [p.expr], p.rest, close)
            else if Starts(ts, close) then Some(ParsedList(done, ts[1..]))
            else None
  {
  }

  lemma MoreArgumentsIs(done: seq<Expr>, ts: seq<Token>)
    ensures MoreArguments(done, ts) ==
            if Starts(ts, Comma) then
              match Level(4, ts[1..])
              case None => None
              case Some(p) => MoreArguments(done + [p.expr], p.rest)
            else if Starts(ts, CloseParen) then Some(ParsedList(done, ts[1..]))
            else None
  {
  }

  lemma LevelIs(k: nat, ts: seq<Token>)
    requires 1 <= k <= 4
    ensures Level(k, ts) == match Level(k - 1, ts) case None => None case Some(p) => LevelLoop(k, p.expr, p.rest)
  {
  }
}
