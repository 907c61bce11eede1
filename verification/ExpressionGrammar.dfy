/** The expression tiers of the parser (src/frontend/parsing.cpp:76-460) as functions on the
    tokens left, with spaces and comments already skipped, and the tokens that stand for an
    expression. `None` is a parse error; lambda expressions are not part of this model. */
module ExpressionGrammar {
  import opened Values
  import opened Syntax
  import opened ExprLowering

  datatype Token =
    | Lit(kind: TokenKind, lexeme: string)
    | Oper(op: Arith)
    | OpenParen | CloseParen | OpenBrace | CloseBrace | OpenBracket | CloseBracket
    | Comma | Dot | Equals | KeywordFn | OtherToken

  datatype Parsed = Parsed(expr: Expr, rest: seq<Token>)

  datatype ParsedList = ParsedList(exprs: seq<Expr>, rest: seq<Token>)

  predicate Starts(ts: seq<Token>, t: Token) {
    ts != [] && ts[0] == t
  }

  /** Binding strength: products, sums, equalities, comparisons. */
  function Tier(op: Arith): nat {
    match op
    case Mul => 1
    case Div => 1
    case Mod => 1
    case Add => 2
    case Sub => 2
    case Equ => 3
    case Neq => 3
    case _ => 4
  }

  predicate StartsTier(ts: seq<Token>, k: nat) {
    ts != [] && ts[0].Oper? && Tier(ts[0].op) == k
  }

  // ---------------------------------------------------------------- parsing

  function Primary(ts: seq<Token>): (r: Option<Parsed>)
    ensures r.Some? ==> |r.value.rest| < |ts|
    decreases |ts|, 0
  {
    if ts == [] then None
    else
      match ts[0]
      case Lit(kind, lexeme) => Some(Parsed(Literal(kind, lexeme), ts[1..]))
      case OpenParen =>
        (match Level(4, ts[1..])
         case None => None
         case Some(p) => if Starts(p.rest, CloseParen) then Some(Parsed(p.expr, p.rest[1..])) else None)
      case OpenBrace =>
        (match Items(ts[1..], CloseBrace)
         case None => None
         case Some(p) => Some(Parsed(Sequence(p.exprs, false), p.rest)))
      case OpenBracket =>
        (match Items(ts[1..], CloseBracket)
         case None => None
         case Some(p) => Some(Parsed(Sequence(p.exprs, true), p.rest)))
      case _ => None
  }

  /** Items of a sequence literal up to and including its closing token. */
  function Items(ts: seq<Token>, close: Token): (r: Option<ParsedList>)
    ensures r.Some? ==> |r.value.rest| < |ts|
    decreases |ts|, 1
  {
    if Starts(ts, close) then MoreItems([], ts, close)
    else
      match Primary(ts)
      case None => None
      case Some(p) => MoreItems([p.expr], p.rest, close)
  }

  function MoreItems(done: seq<Expr>, ts: seq<Token>, close: Token): (r: Option<ParsedList>)
    ensures r.Some? ==> |r.value.rest| < |ts|
    decreases |ts|, 0
  {
    if Starts(ts, Comma) then
      match Primary(ts[1..])
      case None => None
      case Some(p) => MoreItems(done + [p.expr], p.rest, close)
    else if Starts(ts, close) then Some(ParsedList(done, ts[1..]))
    else None
  }

  function Lhs(ts: seq<Token>): (r: Option<Parsed>)
    ensures r.Some? ==> |r.value.rest| < |ts|
    decreases |ts|, 1
  {
    match Primary(ts)
    case None => None
    case Some(p) => LhsLoop(p.expr, p.rest)
  }

  function LhsLoop(lhs: Expr, ts: seq<Token>): (r: Option<Parsed>)
    ensures r.Some? ==> |r.value.rest| <= |ts|
    decreases |ts|, 0
  {
    if Starts(ts, Dot) then
      match CallTier(ts[1..])
      case None => None
      case Some(p) => LhsLoop(Binary(Access, lhs, p.expr), p.rest)
    else Some(Parsed(lhs, ts))
  }

  /** One pair of call parentheses at most. */
  function CallTier(ts: seq<Token>): (r: Option<Parsed>)
    ensures r.Some? ==> |r.value.rest| < |ts|
    decreases |ts|, 2
  {
    match Lhs(ts)
    case None => None
    case Some(p) =>
      if !Starts(p.rest, OpenParen) then Some(p)
      else
        match Arguments(p.rest[1..])
        case None => None
        case Some(q) => Some(Parsed(Expr.Call(p.expr, q.exprs), q.rest))
  }

  function Arguments(ts: seq<Token>): (r: Option<ParsedList>)
    ensures r.Some? ==> |r.value.rest| < |ts|
    decreases |ts|, 9
  {
    if Starts(ts, CloseParen) then MoreArguments([], ts)
    else
      match Level(4, ts)
      case None => None
      case Some(p) => MoreArguments([p.expr], p.rest)
  }

  function MoreArguments(done: seq<Expr>, ts: seq<Token>): (r: Option<ParsedList>)
    ensures r.Some? ==> |r.value.rest| < |ts|
    decreases |ts|, 0
  {
    if Starts(ts, Comma) then
      match Level(4, ts[1..])
      case None => None
      case Some(p) => MoreArguments(done + [p.expr], p.rest)
    else if Starts(ts, CloseParen) then Some(ParsedList(done, ts[1..]))
    else None
  }

  function UnaryTier(ts: seq<Token>): (r: Option<Parsed>)
    ensures r.Some? ==> |r.value.rest| < |ts|
    decreases |ts|, 3
  {
    if Starts(ts, Oper(Sub)) then
      match CallTier(ts[1..])
      case None => None
      case Some(p) => Some(Parsed(Unary(Negate, p.expr), p.rest))
    else CallTier(ts)
  }

  /** Level 0 is the unary tier; level `k` takes operators of tier `k`, from left to right. */
  function Level(k: nat, ts: seq<Token>): (r: Option<Parsed>)
    requires k <= 4
    ensures r.Some? ==> |r.value.rest| < |ts|
    decreases |ts|, 4 + k
  {
    if k == 0 then UnaryTier(ts)
    else
      match Level(k - 1, ts)
      case None => None
      case Some(p) => LevelLoop(k, p.expr, p.rest)
  }

  function LevelLoop(k: nat, left: Expr, ts: seq<Token>): (r: Option<Parsed>)
    requires 1 <= k <= 4
    ensures r.Some? ==> |r.value.rest| <= |ts|
    decreases |ts|, 0
  {
    if StartsTier(ts, k) then
      match Level(k - 1, ts[1..])
      case None => None
      case Some(p) => LevelLoop(k, Binary(Operator.Arith(ts[0].op), left, p.expr), p.rest)
    else Some(Parsed(left, ts))
  }

  /** An expression statement or assignment; only a target of the unary tier is read before
      the equals sign. */
  function AssignTier(ts: seq<Token>): (r: Option<Parsed>) {
    match UnaryTier(ts)
    case None => None
    case Some(p) =>
      if !Starts(p.rest, Equals) then Some(p)
      else
        match Level(4, p.rest[1..])
        case None => None
        case Some(q) => Some(Parsed(Assign(p.expr, q.expr), q.rest))
  }

  // ---------------------------------------------------------------- printing

  /** Expressions the tiers above can produce. */
  predicate Printable(e: Expr) {
    match e
    case Literal(_, _) => true
    case Sequence(items, _) => AllPrintable(items)
    case Call(callee, args) => Printable(callee) && AllPrintable(args)
    case Unary(uop, inner) => uop == Negate && Printable(inner)
    case Binary(bop, left, right) => (bop.Arith? || bop == Access) && Printable(left) && Printable(right)
    case _ => false
  }

  predicate AllPrintable(es: seq<Expr>) {
    es == [] || (Printable(es[0]) && AllPrintable(es[1..]))
  }

  /** The strongest level that reads the expression without parentheses: 0 primary, 1 call and
      access, 2 negation, 3 to 6 the binary tiers. */
  function Home(e: Expr): nat {
    match e
    case Call(_, _) => 1
    case Unary(_, _) => 2
    case Binary(bop, _, _) => if bop.Arith? then 2 + Tier(bop.op) else 1
    case _ => 0
  }

  /** Parentheses only around an expression whose level is too weak for its place. */
  function Print(level: nat, e: Expr): seq<Token>
    requires Printable(e)
    decreases e, 1
  {
    if Home(e) <= level then Form(e) else [OpenParen] + Form(e) + [CloseParen]
  }

  /** What may stand before a dot or before call parentheses: in `a.b` the right side would
      take them, in `a.f(x)` it cannot. */
  predicate ClosedAccess(e: Expr) {
    e.Binary? && e.bop == Access && e.right.Call?
  }

  function PrintHead(e: Expr): seq<Token>
    requires Printable(e)
    decreases e, 2
  {
    if ClosedAccess(e) then Form(e) else Print(0, e)
  }

  function Form(e: Expr): seq<Token>
    requires Printable(e)
    decreases e, 0
  {
    match e
    case Literal(kind, lexeme) => [Lit(kind, lexeme)]
    case Sequence(items, isTuple) =>
      [if isTuple then OpenBracket else OpenBrace] + PrintList(0, items) + [if isTuple then CloseBracket else CloseBrace]
    case Call(callee, args) => PrintHead(callee) + [OpenParen] + PrintList(6, args) + [CloseParen]
    case Unary(_, inner) => [Oper(Sub)] + Print(1, inner)
    case Binary(bop, left, right) =>
      if bop.Arith? then Print(2 + Tier(bop.op), left) + [Oper(bop.op)] + Print(1 + Tier(bop.op), right)
      else PrintHead(left) + [Dot] + Print(1, right)
  }

  function PrintList(level: nat, es: seq<Expr>): seq<Token>
    requires AllPrintable(es)
    decreases es, 3
  {
    if es == [] then [] else Print(level, es[0]) + PrintMore(level, es[1..])
  }

  function PrintMore(level: nat, es: seq<Expr>): seq<Token>
    requires AllPrintable(es)
    decreases es, 3
  {
    if es == [] then [] else [Comma] + Print(level, es[0]) + PrintMore(level, es[1..])
  }

  // ---------------------------------------------------------------- parsing undoes printing

  /** Tokens that would go on with an expression of the call tier. */
  predicate Continues(ts: seq<Token>) {
    Starts(ts, Dot) || Starts(ts, OpenParen)
  }

  /** An operator that a level below `k` would take. */
  predicate TakenBelow(ts: seq<Token>, k: nat) {
    ts != [] && ts[0].Oper? && Tier(ts[0].op) < k
  }

  predicate Opens(t: Token) {
    t.Lit? || t == OpenParen || t == OpenBrace || t == OpenBracket
  }

  /** The first token of a printed expression. */
  lemma {:induction false} FirstToken(e: Expr)
    requires Printable(e)
    ensures Form(e) != [] && (Opens(Form(e)[0]) || (Home(e) >= 2 && Form(e)[0] == Oper(Sub)))
    ensures PrintHead(e) != [] && Opens(PrintHead(e)[0])
    ensures forall level :: Print(level, e) != [] && (Opens(Print(level, e)[0]) || (level >= 2 && Print(level, e)[0] == Oper(Sub)))
    decreases e
  {
    match e
    case Call(callee, args) => FirstToken(callee);
    case Unary(_, inner) =>
    case Binary(bop, left, right) => FirstToken(left);
    case _ =>
  }

  function Rank(level: nat, e: Expr): nat {
    if Home(e) <= level then level else 10 + level
  }

  lemma {:induction false} PrimaryBack(e: Expr, rest: seq<Token>)
    requires Printable(e)
    ensures Primary(Print(0, e) + rest) == Some(Parsed(e, rest))
    decreases e, 10 * Rank(0, e)
  {
    hide *;
    match e
    case Literal(_, _) => LiteralBack(e, rest);
    case Sequence(items, isTuple) =>
      var close := if isTuple then CloseBracket else CloseBrace;
      SequencePrint(e, rest);
      ItemsBack(items, close, rest);
      SequenceBack(e, rest);
    case _ =>
      PrintedParens(e, rest);
      LevelBack(4, e, [CloseParen] + rest);
      ParensBack(e, rest);
  }

  lemma LiteralBack(e: Expr, rest: seq<Token>)
    requires e.Literal?
    ensures Primary(Print(0, e) + rest) == Some(Parsed(e, rest))
  {
    assert Print(0, e) + rest == [Lit(e.kind, e.lexeme)] + rest;
    assert ([Lit(e.kind, e.lexeme)] + rest)[1..] == rest;
  }

  lemma SequencePrint(e: Expr, rest: seq<Token>)
    requires e.Sequence? && Printable(e)
    ensures AllPrintable(e.items)
    ensures Print(0, e) + rest == [if e.isTuple then OpenBracket else OpenBrace]
              + (PrintList(0, e.items) + ([if e.isTuple then CloseBracket else CloseBrace] + rest))
  {
  }

  lemma SequenceBack(e: Expr, rest: seq<Token>)
    requires e.Sequence? && Printable(e) && AllPrintable(e.items)
    requires var close := if e.isTuple then CloseBracket else CloseBrace;
             Items(PrintList(0, e.items) + ([close] + rest), close) == Some(ParsedList(e.items, rest))
    requires Print(0, e) + rest == [if e.isTuple then OpenBracket else OpenBrace]
              + (PrintList(0, e.items) + ([if e.isTuple then CloseBracket else CloseBrace] + rest))
    ensures Primary(Print(0, e) + rest) == Some(Parsed(e, rest))
  {
    hide Items, Print, PrintList, AllPrintable;
    var ts := PrintList(0, e.items) + ([if e.isTuple then CloseBracket else CloseBrace] + rest);
    var open := if e.isTuple then OpenBracket else OpenBrace;
    assert ([open] + ts)[1..] == ts;
  }

  lemma PrintedParens(e: Expr, rest: seq<Token>)
    requires Printable(e) && !e.Literal? && !e.Sequence?
    ensures 0 < Home(e) <= 6 && Rank(4 + 2, e) < 10 <= Rank(0, e)
    ensures Print(0, e) + rest == [OpenParen] + (Print(6, e) + ([CloseParen] + rest))
    ensures Starts([CloseParen] + rest, CloseParen) && ([CloseParen] + rest)[1..] == rest
    ensures !Continues([CloseParen] + rest) && !TakenBelow([CloseParen] + rest, 4) && !StartsTier([CloseParen] + rest, 4)
  {
    assert Print(0, e) + rest == [OpenParen] + (Form(e) + ([CloseParen] + rest));
  }

  lemma ParensBack(e: Expr, rest: seq<Token>)
    requires Printable(e) && Print(0, e) + rest == [OpenParen] + (Print(6, e) + ([CloseParen] + rest))
    requires Level(4, Print(6, e) + ([CloseParen] + rest)) == LevelLoop(4, e, [CloseParen] + rest)
    requires !StartsTier([CloseParen] + rest, 4) && Starts([CloseParen] + rest, CloseParen) && ([CloseParen] + rest)[1..] == rest
    ensures Primary(Print(0, e) + rest) == Some(Parsed(e, rest))
  {
    hide Print, Level, Printable;
    var ts := Print(6, e) + ([CloseParen] + rest);
    assert ([OpenParen] + ts)[1..] == ts;
  }

  /** Up to a place where a dot may follow. */
  lemma {:induction false} HeadBack(e: Expr, rest: seq<Token>)
    requires Printable(e)
    ensures Lhs(PrintHead(e) + rest) == LhsLoop(e, rest)
    decreases e, 200
  {
    hide *;
    if e.Binary? && e.bop == Access && e.right.Call? {
      AccessParts(e, rest);
      HeadBack(e.left, [Dot] + (Print(1, e.right) + rest));
      CallBack(e.right, rest);
      ClosedBack(e, rest);
    } else {
      RankBound(e);
      PrimaryBack(e, rest);
      HeadPrimary(e, rest);
    }
  }

  lemma RankBound(e: Expr)
    ensures Rank(0, e) <= 10
  {
  }

  lemma HeadPrimary(e: Expr, rest: seq<Token>)
    requires !(e.Binary? && e.bop == Access && e.right.Call?)
    requires Printable(e) && Primary(Print(0, e) + rest) == Some(Parsed(e, rest))
    ensures Lhs(PrintHead(e) + rest) == LhsLoop(e, rest)
  {
    hide Primary, Print, Printable, LhsLoop;
  }

  lemma AccessParts(e: Expr, rest: seq<Token>)
    requires e.Binary? && e.bop == Access && Printable(e)
    ensures Printable(e.left) && Printable(e.right)
    ensures Form(e) + rest == PrintHead(e.left) + ([Dot] + (Print(1, e.right) + rest))
    ensures Home(e) == 1 && Print(1, e) == Form(e)
    ensures Starts([Dot] + (Print(1, e.right) + rest), Dot) && ([Dot] + (Print(1, e.right) + rest))[1..] == Print(1, e.right) + rest
    ensures ClosedAccess(e) <==> e.right.Call?
    ensures ClosedAccess(e) ==> PrintHead(e) == Form(e)
  {
  }

  lemma ClosedBack(e: Expr, rest: seq<Token>)
    requires ClosedAccess(e) && Printable(e) && Printable(e.left) && Printable(e.right) && PrintHead(e) == Form(e)
    requires Form(e) + rest == PrintHead(e.left) + ([Dot] + (Print(1, e.right) + rest))
    requires Lhs(PrintHead(e.left) + ([Dot] + (Print(1, e.right) + rest))) == LhsLoop(e.left, [Dot] + (Print(1, e.right) + rest))
    requires ([Dot] + (Print(1, e.right) + rest))[1..] == Print(1, e.right) + rest
    requires CallTier(Print(1, e.right) + rest) == Some(Parsed(e.right, rest))
    ensures Lhs(PrintHead(e) + rest) == LhsLoop(e, rest)
  {
    hide Lhs, PrintHead, Form, Print, Printable, CallTier;
  }

  lemma {:induction false} CallBack(e: Expr, rest: seq<Token>)
    requires Printable(e) && (e.Call? || !Continues(rest))
    ensures CallTier(Print(1, e) + rest) == Some(Parsed(e, rest))
    decreases e, 10 * Rank(1, e) + 1
  {
    hide *;
    if e.Call? {
      CallParts(e, rest);
      HeadBack(e.callee, [OpenParen] + (PrintList(6, e.args) + ([CloseParen] + rest)));
      ArgumentsBack(e.args, rest);
      CallMade(e, rest);
    } else if e.Binary? && e.bop == Access {
      AccessParts(e, rest);
      HeadBack(e.left, [Dot] + (Print(1, e.right) + rest));
      CallBack(e.right, rest);
      AccessMade(e, rest);
    } else {
      NotCall(e);
      PrimaryBack(e, rest);
      CallPrimary(e, rest);
    }
  }

  lemma NotCall(e: Expr)
    requires Printable(e) && !e.Call? && !(e.Binary? && e.bop == Access)
    ensures Print(1, e) == Print(0, e) && Rank(0, e) < Rank(1, e)
  {
  }

  lemma CallPrimary(e: Expr, rest: seq<Token>)
    requires Printable(e) && !Continues(rest) && Print(1, e) == Print(0, e)
    requires Primary(Print(0, e) + rest) == Some(Parsed(e, rest))
    ensures CallTier(Print(1, e) + rest) == Some(Parsed(e, rest))
  {
    hide Primary, Print, Printable, CallTier, LhsLoop;
    LoopEnds(e, rest);
    CallEnds(Print(1, e) + rest, e, rest);
  }

  lemma AccessMade(e: Expr, rest: seq<Token>)
    requires e.Binary? && e.bop == Access && Printable(e) && Printable(e.left) && Printable(e.right) && !Continues(rest)
    requires Print(1, e) == Form(e) && Form(e) + rest == PrintHead(e.left) + ([Dot] + (Print(1, e.right) + rest))
    requires Lhs(PrintHead(e.left) + ([Dot] + (Print(1, e.right) + rest))) == LhsLoop(e.left, [Dot] + (Print(1, e.right) + rest))
    requires ([Dot] + (Print(1, e.right) + rest))[1..] == Print(1, e.right) + rest
    requires CallTier(Print(1, e.right) + rest) == Some(Parsed(e.right, rest))
    ensures CallTier(Print(1, e) + rest) == Some(Parsed(e, rest))
  {
    var after := Print(1, e.right) + rest;
    hide Lhs, PrintHead, Form, Print, Printable, Arguments;
    LoopDot(e.left, [Dot] + after, e.right, rest);
    LoopEnds(e, rest);
    CallEnds(Print(1, e) + rest, e, rest);
  }

  lemma LoopDot(left: Expr, ts: seq<Token>, right: Expr, rest: seq<Token>)
    requires Starts(ts, Dot) && CallTier(ts[1..]) == Some(Parsed(right, rest))
    ensures LhsLoop(left, ts) == LhsLoop(Binary(Access, left, right), rest)
  {
    hide CallTier;
  }

  lemma LoopEnds(e: Expr, rest: seq<Token>)
    requires !Continues(rest)
    ensures LhsLoop(e, rest) == Some(Parsed(e, rest))
  {
  }

  lemma CallEnds(ts: seq<Token>, e: Expr, rest: seq<Token>)
    requires Lhs(ts) == Some(Parsed(e, rest)) && !Continues(rest)
    ensures CallTier(ts) == Some(Parsed(e, rest))
  {
    hide Lhs;
  }

  lemma CallParts(e: Expr, rest: seq<Token>)
    requires e.Call? && Printable(e)
    ensures Printable(e.callee) && AllPrintable(e.args)
    ensures Print(1, e) + rest == PrintHead(e.callee) + ([OpenParen] + (PrintList(6, e.args) + ([CloseParen] + rest)))
  {
    assert Print(1, e) == Form(e);
  }

  lemma CallMade(e: Expr, rest: seq<Token>)
    requires e.Call? && Printable(e) && Printable(e.callee) && AllPrintable(e.args)
    requires Print(1, e) + rest == PrintHead(e.callee) + ([OpenParen] + (PrintList(6, e.args) + ([CloseParen] + rest)))
    requires var ts := [OpenParen] + (PrintList(6, e.args) + ([CloseParen] + rest));
             Lhs(PrintHead(e.callee) + ts) == LhsLoop(e.callee, ts)
    requires Arguments(PrintList(6, e.args) + ([CloseParen] + rest)) == Some(ParsedList(e.args, rest))
    ensures CallTier(Print(1, e) + rest) == Some(Parsed(e, rest))
  {
    hide Lhs, PrintHead, Print, PrintList, Printable, AllPrintable, Arguments;
    var after := PrintList(6, e.args) + ([CloseParen] + rest);
    assert ([OpenParen] + after)[1..] == after;
    assert LhsLoop(e.callee, [OpenParen] + after) == Some(Parsed(e.callee, [OpenParen] + after));
  }

  // ---------------------------------------------------------------- lists

  lemma {:induction false} ItemsBack(items: seq<Expr>, close: Token, rest: seq<Token>)
    requires AllPrintable(items) && close in {CloseBracket, CloseBrace}
    ensures Items(PrintList(0, items) + ([close] + rest), close) == Some(ParsedList(items, rest))
    decreases items, 300
  {
    hide *;
    if items == [] {
      NoItems(close, rest);
    } else {
      ListParts(0, items, close, rest);
      PrimaryBack(items[0], PrintMore(0, items[1..]) + ([close] + rest));
      MoreItemsBack([items[0]], items[1..], close, rest);
      FirstItem(items, close, rest);
    }
  }

  lemma NoItems(close: Token, rest: seq<Token>)
    requires close in {CloseBracket, CloseBrace}
    ensures Items(PrintList(0, []) + ([close] + rest), close) == Some(ParsedList([], rest))
  {
    assert [] + ([close] + rest) == [close] + rest && ([close] + rest)[1..] == rest;
  }

  lemma ListParts(level: nat, es: seq<Expr>, close: Token, rest: seq<Token>)
    requires AllPrintable(es) && es != []
    ensures Printable(es[0]) && AllPrintable(es[1..]) && [es[0]] + es[1..] == es
    ensures PrintList(level, es) + ([close] + rest) == Print(level, es[0]) + (PrintMore(level, es[1..]) + ([close] + rest))
  {
  }

  lemma FirstItem(items: seq<Expr>, close: Token, rest: seq<Token>)
    requires items != [] && AllPrintable(items) && Printable(items[0]) && AllPrintable(items[1..]) && [items[0]] + items[1..] == items
    requires close in {CloseBracket, CloseBrace}
    requires PrintList(0, items) + ([close] + rest) == Print(0, items[0]) + (PrintMore(0, items[1..]) + ([close] + rest))
    requires var after := PrintMore(0, items[1..]) + ([close] + rest);
             && Primary(Print(0, items[0]) + after) == Some(Parsed(items[0], after))
             && MoreItems([items[0]], after, close) == Some(ParsedList([items[0]] + items[1..], rest))
    ensures Items(PrintList(0, items) + ([close] + rest), close) == Some(ParsedList(items, rest))
  {
    FirstToken(items[0]);
    hide Primary, MoreItems, Print, PrintList, PrintMore, Printable, AllPrintable, Form, PrintHead;
    var after := PrintMore(0, items[1..]) + ([close] + rest);
    assert (Print(0, items[0]) + after)[0] == Print(0, items[0])[0];
  }

  lemma {:induction false} MoreItemsBack(done: seq<Expr>, items: seq<Expr>, close: Token, rest: seq<Token>)
    requires AllPrintable(items) && close in {CloseBracket, CloseBrace}
    ensures MoreItems(done, PrintMore(0, items) + ([close] + rest), close) == Some(ParsedList(done + items, rest))
    decreases items, 299
  {
    hide *;
    if items == [] {
      ItemsEnd(done, close, rest);
    } else {
      MoreParts(0, items, close, rest);
      PrimaryBack(items[0], PrintMore(0, items[1..]) + ([close] + rest));
      MoreItemsBack(done + [items[0]], items[1..], close, rest);
      NextItem(done, items, close, rest);
    }
  }

  lemma ItemsEnd(done: seq<Expr>, close: Token, rest: seq<Token>)
    requires close in {CloseBracket, CloseBrace}
    ensures MoreItems(done, PrintMore(0, []) + ([close] + rest), close) == Some(ParsedList(done + [], rest))
  {
    assert [] + ([close] + rest) == [close] + rest && ([close] + rest)[1..] == rest && done + [] == done;
  }

  lemma MoreParts(level: nat, es: seq<Expr>, close: Token, rest: seq<Token>)
    requires AllPrintable(es) && es != []
    ensures Printable(es[0]) && AllPrintable(es[1..])
    ensures PrintMore(level, es) + ([close] + rest) == [Comma] + (Print(level, es[0]) + (PrintMore(level, es[1..]) + ([close] + rest)))
  {
  }

  lemma NextItem(done: seq<Expr>, items: seq<Expr>, close: Token, rest: seq<Token>)
    requires items != [] && AllPrintable(items) && Printable(items[0]) && AllPrintable(items[1..])
    requires PrintMore(0, items) + ([close] + rest) == [Comma] + (Print(0, items[0]) + (PrintMore(0, items[1..]) + ([close] + rest)))
    requires var after := PrintMore(0, items[1..]) + ([close] + rest);
             && Primary(Print(0, items[0]) + after) == Some(Parsed(items[0], after))
             && MoreItems(done + [items[0]], after, close) == Some(ParsedList(done + [items[0]] + items[1..], rest))
    ensures MoreItems(done, PrintMore(0, items) + ([close] + rest), close) == Some(ParsedList(done + items, rest))
  {
    hide Primary, Print, PrintMore, Printable, AllPrintable;
    var ts := Print(0, items[0]) + (PrintMore(0, items[1..]) + ([close] + rest));
    assert ([Comma] + ts)[1..] == ts;
    assert done + [items[0]] + items[1..] == done + items;
  }

  lemma {:induction false} ArgumentsBack(args: seq<Expr>, rest: seq<Token>)
    requires AllPrintable(args)
    ensures Arguments(PrintList(6, args) + ([CloseParen] + rest)) == Some(ParsedList(args, rest))
    decreases args, 300
  {
    hide *;
    if args == [] {
      NoArguments(rest);
    } else {
      ListParts(6, args, CloseParen, rest);
      var after := PrintMore(6, args[1..]) + ([CloseParen] + rest);
      AfterArgument(args[1..], rest);
      LevelBack(4, args[0], after);
      LoopStops(4, args[0], after);
      MoreArgumentsBack([args[0]], args[1..], rest);
      FirstArgument(args, rest);
    }
  }

  lemma NoArguments(rest: seq<Token>)
    ensures Arguments(PrintList(6, []) + ([CloseParen] + rest)) == Some(ParsedList([], rest))
  {
    assert [] + ([CloseParen] + rest) == [CloseParen] + rest && ([CloseParen] + rest)[1..] == rest;
  }

  /** What follows an argument cannot go on with it. */
  lemma AfterArgument(args: seq<Expr>, rest: seq<Token>)
    requires AllPrintable(args)
    ensures var after := PrintMore(6, args) + ([CloseParen] + rest);
            !Continues(after) && !TakenBelow(after, 4) && !StartsTier(after, 4)
  {
    if args != [] {
      MoreParts(6, args, CloseParen, rest);
    } else {
      assert [] + ([CloseParen] + rest) == [CloseParen] + rest;
    }
  }

  lemma LoopStops(k: nat, e: Expr, ts: seq<Token>)
    requires 1 <= k <= 4 && !StartsTier(ts, k)
    ensures LevelLoop(k, e, ts) == Some(Parsed(e, ts))
  {
  }

  lemma FirstArgument(args: seq<Expr>, rest: seq<Token>)
    requires args != [] && AllPrintable(args) && Printable(args[0]) && AllPrintable(args[1..]) && [args[0]] + args[1..] == args
    requires PrintList(6, args) + ([CloseParen] + rest) == Print(6, args[0]) + (PrintMore(6, args[1..]) + ([CloseParen] + rest))
    requires var after := PrintMore(6, args[1..]) + ([CloseParen] + rest);
             && Level(4, Print(6, args[0]) + after) == Some(Parsed(args[0], after))
             && MoreArguments([args[0]], after) == Some(ParsedList([args[0]] + args[1..], rest))
    ensures Arguments(PrintList(6, args) + ([CloseParen] + rest)) == Some(ParsedList(args, rest))
  {
    FirstToken(args[0]);
    hide Level, MoreArguments, Print, PrintList, PrintMore, Printable, AllPrintable, Form, PrintHead;
    var after := PrintMore(6, args[1..]) + ([CloseParen] + rest);
    assert (Print(6, args[0]) + after)[0] == Print(6, args[0])[0];
  }

  lemma {:induction false} MoreArgumentsBack(done: seq<Expr>, args: seq<Expr>, rest: seq<Token>)
    requires AllPrintable(args)
    ensures MoreArguments(done, PrintMore(6, args) + ([CloseParen] + rest)) == Some(ParsedList(done + args, rest))
    decreases args, 299
  {
    hide *;
    if args == [] {
      ArgumentsEnd(done, rest);
    } else {
      MoreParts(6, args, CloseParen, rest);
      var after := PrintMore(6, args[1..]) + ([CloseParen] + rest);
      AfterArgument(args[1..], rest);
      LevelBack(4, args[0], after);
      LoopStops(4, args[0], after);
      MoreArgumentsBack(done + [args[0]], args[1..], rest);
      NextArgument(done, args, rest);
    }
  }

  lemma ArgumentsEnd(done: seq<Expr>, rest: seq<Token>)
    ensures MoreArguments(done, PrintMore(6, []) + ([CloseParen] + rest)) == Some(ParsedList(done + [], rest))
  {
    assert [] + ([CloseParen] + rest) == [CloseParen] + rest && ([CloseParen] + rest)[1..] == rest && done + [] == done;
  }

  lemma NextArgument(done: seq<Expr>, args: seq<Expr>, rest: seq<Token>)
    requires args != [] && AllPrintable(args) && Printable(args[0]) && AllPrintable(args[1..])
    requires PrintMore(6, args) + ([CloseParen] + rest) == [Comma] + (Print(6, args[0]) + (PrintMore(6, args[1..]) + ([CloseParen] + rest)))
    requires var after := PrintMore(6, args[1..]) + ([CloseParen] + rest);
             && Level(4, Print(6, args[0]) + after) == Some(Parsed(args[0], after))
             && MoreArguments(done + [args[0]], after) == Some(ParsedList(done + [args[0]] + args[1..], rest))
    ensures MoreArguments(done, PrintMore(6, args) + ([CloseParen] + rest)) == Some(ParsedList(done + args, rest))
  {
    hide Level, Print, PrintMore, Printable, AllPrintable;
    var ts := Print(6, args[0]) + (PrintMore(6, args[1..]) + ([CloseParen] + rest));
    assert ([Comma] + ts)[1..] == ts;
    assert done + [args[0]] + args[1..] == done + args;
  }

  // ---------------------------------------------------------------- the binary tiers

  lemma {:induction false} UnaryBack(e: Expr, rest: seq<Token>)
    requires Printable(e) && !Continues(rest)
    ensures UnaryTier(Print(2, e) + rest) == Some(Parsed(e, rest))
    decreases e, 10 * Rank(2, e) + 2
  {
    hide *;
    if e.Unary? {
      UnaryParts(e, rest);
      CallBack(e.inner, rest);
      UnaryMade(e, rest);
    } else {
      NotUnary(e);
      CallBack(e, rest);
      UnaryCall(e, rest);
    }
  }

  lemma UnaryParts(e: Expr, rest: seq<Token>)
    requires e.Unary? && Printable(e)
    ensures Printable(e.inner) && e.uop == Negate && Print(2, e) + rest == [Oper(Sub)] + (Print(1, e.inner) + rest)
  {
  }

  lemma UnaryMade(e: Expr, rest: seq<Token>)
    requires e.Unary? && Printable(e) && Printable(e.inner) && e.uop == Negate
    requires Print(2, e) + rest == [Oper(Sub)] + (Print(1, e.inner) + rest)
    requires CallTier(Print(1, e.inner) + rest) == Some(Parsed(e.inner, rest))
    ensures UnaryTier(Print(2, e) + rest) == Some(Parsed(e, rest))
  {
    var ts := Print(1, e.inner) + rest;
    assert ([Oper(Sub)] + ts)[1..] == ts;
    hide CallTier, Print, Printable;
  }

  lemma NotUnary(e: Expr)
    requires Printable(e) && !e.Unary?
    ensures Print(2, e) == Print(1, e) && Rank(1, e) < Rank(2, e)
  {
  }

  lemma UnaryCall(e: Expr, rest: seq<Token>)
    requires Printable(e) && Print(2, e) == Print(1, e) && CallTier(Print(1, e) + rest) == Some(Parsed(e, rest))
    ensures UnaryTier(Print(2, e) + rest) == Some(Parsed(e, rest))
  {
    FirstToken(e);
    hide CallTier, Print, Printable, Form, PrintHead;
    assert (Print(1, e) + rest)[0] == Print(1, e)[0];
  }

  /** Reading a printed expression brings the level's loop to the state in which the whole
      expression is its left operand. */
  lemma {:induction false} LevelBack(k: nat, e: Expr, rest: seq<Token>)
    requires 1 <= k <= 4 && Printable(e) && !Continues(rest) && !TakenBelow(rest, k)
    ensures Level(k, Print(2 + k, e) + rest) == LevelLoop(k, e, rest)
    decreases e, 10 * Rank(2 + k, e) + 3
  {
    hide *;
    if e.Binary? && e.bop.Arith? && Tier(e.bop.op) == k {
      TierParts(e, k, rest);
      LevelBack(k, e.left, [Oper(e.bop.op)] + (Print(1 + k, e.right) + rest));
      BelowBack(k, e.right, rest);
      TierMade(k, e, rest);
    } else {
      NotTier(e, k);
      BelowBack(k, e, rest);
      LevelDown(k, e, rest);
    }
  }

  /** The level below reads the whole expression. */
  lemma {:induction false} BelowBack(k: nat, e: Expr, rest: seq<Token>)
    requires 1 <= k <= 4 && Printable(e) && !Continues(rest) && !TakenBelow(rest, k)
    ensures Level(k - 1, Print(1 + k, e) + rest) == Some(Parsed(e, rest))
    decreases e, 10 * Rank(1 + k, e) + 4
  {
    hide *;
    if k == 1 {
      UnaryBack(e, rest);
      LevelZero(Print(2, e) + rest);
    } else {
      LessTaken(rest, k);
      LevelBack(k - 1, e, rest);
      LoopStops(k - 1, e, rest);
    }
  }

  lemma LevelZero(ts: seq<Token>)
    ensures Level(0, ts) == UnaryTier(ts)
  {
  }

  lemma LessTaken(ts: seq<Token>, k: nat)
    requires k > 1 && !TakenBelow(ts, k)
    ensures !TakenBelow(ts, k - 1) && !StartsTier(ts, k - 1)
  {
  }

  lemma TierParts(e: Expr, k: nat, rest: seq<Token>)
    requires e.Binary? && e.bop.Arith? && Tier(e.bop.op) == k && Printable(e)
    ensures Printable(e.left) && Printable(e.right)
    ensures Print(2 + k, e) + rest == Print(2 + k, e.left) + ([Oper(e.bop.op)] + (Print(1 + k, e.right) + rest))
    ensures var ts := [Oper(e.bop.op)] + (Print(1 + k, e.right) + rest);
            !Continues(ts) && !TakenBelow(ts, k) && StartsTier(ts, k) && ts[0] == Oper(e.bop.op) && ts[1..] == Print(1 + k, e.right) + rest
  {
  }

  lemma TierMade(k: nat, e: Expr, rest: seq<Token>)
    requires e.Binary? && e.bop.Arith? && Tier(e.bop.op) == k && 1 <= k <= 4 && Printable(e) && Printable(e.left) && Printable(e.right)
    requires Print(2 + k, e) + rest == Print(2 + k, e.left) + ([Oper(e.bop.op)] + (Print(1 + k, e.right) + rest))
    requires var ts := [Oper(e.bop.op)] + (Print(1 + k, e.right) + rest);
             && Level(k, Print(2 + k, e.left) + ts) == LevelLoop(k, e.left, ts)
             && StartsTier(ts, k) && ts[0] == Oper(e.bop.op) && ts[1..] == Print(1 + k, e.right) + rest
    requires Level(k - 1, Print(1 + k, e.right) + rest) == Some(Parsed(e.right, rest))
    ensures Level(k, Print(2 + k, e) + rest) == LevelLoop(k, e, rest)
  {
    hide Level, Print, Printable;
  }

  lemma NotTier(e: Expr, k: nat)
    requires 1 <= k <= 4 && Printable(e) && !(e.Binary? && e.bop.Arith? && Tier(e.bop.op) == k)
    ensures Print(2 + k, e) == Print(1 + k, e) && Rank(1 + k, e) < Rank(2 + k, e)
  {
  }

  lemma LevelDown(k: nat, e: Expr, rest: seq<Token>)
    requires 1 <= k <= 4 && Printable(e) && Print(2 + k, e) == Print(1 + k, e)
    requires Level(k - 1, Print(1 + k, e) + rest) == Some(Parsed(e, rest))
    ensures Level(k, Print(2 + k, e) + rest) == LevelLoop(k, e, rest)
  {
    hide Print, Printable, LevelLoop;
  }

  // ---------------------------------------------------------------- main results

  /** No token that could go on with an expression. */
  predicate Ends(rest: seq<Token>) {
    !Continues(rest) && (rest == [] || !rest[0].Oper?)
  }

  /** Parsing undoes printing: the same tree and exactly the remaining tokens. */
  lemma RoundTrip(e: Expr, rest: seq<Token>)
    requires Printable(e) && Ends(rest)
    ensures Level(4, Print(6, e) + rest) == Some(Parsed(e, rest))
  {
    hide Level, Print, Printable;
    LevelBack(4, e, rest);
    LoopStops(4, e, rest);
  }

  /** Different trees are printed differently. */
  lemma PrintInjective(a: Expr, b: Expr)
    requires Printable(a) && Printable(b) && Print(6, a) == Print(6, b)
    ensures a == b
  {
    hide *;
    EndsAtEnd();
    RoundTrip(a, []);
    RoundTrip(b, []);
  }

  lemma EndsAtEnd()
    ensures Ends([])
  {
  }

  // ---------------------------------------------------------------- what parsing yields

  lemma {:induction false} PrimaryPrintable(ts: seq<Token>)
    ensures Primary(ts).Some? ==> Printable(Primary(ts).value.expr)
    decreases |ts|, 0
  {
    hide Level, Items, AllPrintable;
    if ts != [] {
      match ts[0]
      case OpenParen => LevelPrintable(4, ts[1..]);
      case OpenBrace => ItemsPrintable(ts[1..], CloseBrace);
      case OpenBracket => ItemsPrintable(ts[1..], CloseBracket);
      case _ =>
    }
  }

  lemma {:induction false} AllPrintableMore(es: seq<Expr>, e: Expr)
    requires AllPrintable(es) && Printable(e)
    ensures AllPrintable(es + [e])
  {
    if es == [] {
      assert [e][1..] == [];
    } else {
      AllPrintableMore(es[1..], e);
      assert (es + [e])[1..] == es[1..] + [e];
    }
  }

  lemma {:induction false} ItemsPrintable(ts: seq<Token>, close: Token)
    ensures Items(ts, close).Some? ==> AllPrintable(Items(ts, close).value.exprs)
    decreases |ts|, 1
  {
    hide Primary, MoreItems, Printable;
    if Starts(ts, close) {
      MoreItemsPrintable([], ts, close);
    } else {
      PrimaryPrintable(ts);
      if Primary(ts).Some? {
        var p := Primary(ts).value;
        assert [p.expr] == [] + [p.expr];
        AllPrintableMore([], p.expr);
        MoreItemsPrintable([p.expr], p.rest, close);
      }
    }
  }

  lemma {:induction false} MoreItemsPrintable(done: seq<Expr>, ts: seq<Token>, close: Token)
    requires AllPrintable(done)
    ensures MoreItems(done, ts, close).Some? ==> AllPrintable(MoreItems(done, ts, close).value.exprs)
    decreases |ts|, 0
  {
    hide Primary, Printable, AllPrintable;
    if Starts(ts, Comma) {
      PrimaryPrintable(ts[1..]);
      if Primary(ts[1..]).Some? {
        var p := Primary(ts[1..]).value;
        AllPrintableMore(done, p.expr);
        MoreItemsPrintable(done + [p.expr], p.rest, close);
      }
    }
  }

  lemma {:induction false} LhsPrintable(ts: seq<Token>)
    ensures Lhs(ts).Some? ==> Printable(Lhs(ts).value.expr)
    decreases |ts|, 1
  {
    hide Primary, LhsLoop, Printable;
    PrimaryPrintable(ts);
    if Primary(ts).Some? {
      LhsLoopPrintable(Primary(ts).value.expr, Primary(ts).value.rest);
    }
  }

  lemma {:induction false} LhsLoopPrintable(lhs: Expr, ts: seq<Token>)
    requires Printable(lhs)
    ensures LhsLoop(lhs, ts).Some? ==> Printable(LhsLoop(lhs, ts).value.expr)
    decreases |ts|, 0
  {
    hide CallTier;
    if Starts(ts, Dot) {
      CallPrintable(ts[1..]);
      if CallTier(ts[1..]).Some? {
        var p := CallTier(ts[1..]).value;
        LhsLoopPrintable(Binary(Access, lhs, p.expr), p.rest);
      }
    }
  }

  lemma {:induction false} CallPrintable(ts: seq<Token>)
    ensures CallTier(ts).Some? ==> Printable(CallTier(ts).value.expr)
    decreases |ts|, 2
  {
    hide Lhs, Arguments, AllPrintable;
    LhsPrintable(ts);
    if Lhs(ts).Some? && Starts(Lhs(ts).value.rest, OpenParen) {
      ArgumentsPrintable(Lhs(ts).value.rest[1..]);
    }
  }

  lemma {:induction false} ArgumentsPrintable(ts: seq<Token>)
    ensures Arguments(ts).Some? ==> AllPrintable(Arguments(ts).value.exprs)
    decreases |ts|, 9
  {
    hide Level, MoreArguments, Printable;
    if Starts(ts, CloseParen) {
      MoreArgumentsPrintable([], ts);
    } else {
      LevelPrintable(4, ts);
      if Level(4, ts).Some? {
        var p := Level(4, ts).value;
        assert [p.expr] == [] + [p.expr];
        AllPrintableMore([], p.expr);
        MoreArgumentsPrintable([p.expr], p.rest);
      }
    }
  }

  lemma {:induction false} MoreArgumentsPrintable(done: seq<Expr>, ts: seq<Token>)
    requires AllPrintable(done)
    ensures MoreArguments(done, ts).Some? ==> AllPrintable(MoreArguments(done, ts).value.exprs)
    decreases |ts|, 0
  {
    hide Level, Printable, AllPrintable;
    if Starts(ts, Comma) {
      LevelPrintable(4, ts[1..]);
      if Level(4, ts[1..]).Some? {
        var p := Level(4, ts[1..]).value;
        AllPrintableMore(done, p.expr);
        MoreArgumentsPrintable(done + [p.expr], p.rest);
      }
    }
  }

  lemma {:induction false} UnaryPrintable(ts: seq<Token>)
    ensures UnaryTier(ts).Some? ==> Printable(UnaryTier(ts).value.expr)
    decreases |ts|, 3
  {
    hide CallTier;
    if Starts(ts, Oper(Sub)) {
      CallPrintable(ts[1..]);
    } else {
      CallPrintable(ts);
    }
  }

  lemma {:induction false} LevelPrintable(k: nat, ts: seq<Token>)
    requires k <= 4
    ensures Level(k, ts).Some? ==> Printable(Level(k, ts).value.expr)
    decreases |ts|, 4 + k
  {
    hide UnaryTier, LevelLoop, Printable;
    if k == 0 {
      UnaryPrintable(ts);
    } else {
      LevelPrintable(k - 1, ts);
      if Level(k - 1, ts).Some? {
        LevelLoopPrintable(k, Level(k - 1, ts).value.expr, Level(k - 1, ts).value.rest);
      }
    }
  }

  lemma {:induction false} LevelLoopPrintable(k: nat, left: Expr, ts: seq<Token>)
    requires 1 <= k <= 4 && Printable(left)
    ensures LevelLoop(k, left, ts).Some? ==> Printable(LevelLoop(k, left, ts).value.expr)
    decreases |ts|, 0
  {
    hide Level;
    if StartsTier(ts, k) {
      LevelPrintable(k - 1, ts[1..]);
      if Level(k - 1, ts[1..]).Some? {
        var p := Level(k - 1, ts[1..]).value;
        LevelLoopPrintable(k, Binary(Operator.Arith(ts[0].op), left, p.expr), p.rest);
      }
    }
  }

  /** Whatever is parsed can be printed, and reading it back gives the same tree: the printed
      form is a normal form for all token strings with one meaning. */
  lemma Reprinted(ts: seq<Token>)
    requires Level(4, ts).Some?
    ensures Printable(Level(4, ts).value.expr)
    ensures Level(4, Print(6, Level(4, ts).value.expr)) == Some(Parsed(Level(4, ts).value.expr, []))
  {
    hide Level, Print, Printable;
    LevelPrintable(4, ts);
    var e := Level(4, ts).value.expr;
    RoundTrip(e, []);
    assert Print(6, e) + [] == Print(6, e);
  }

  // ---------------------------------------------------------------- statements

  /** An assignment reads back, with a target of the unary tier. */
  lemma AssignRoundTrip(target: Expr, value: Expr, rest: seq<Token>)
    requires Printable(target) && Printable(value) && Ends(rest)
    ensures AssignTier(Print(2, target) + ([Equals] + (Print(6, value) + rest))) == Some(Parsed(Assign(target, value), rest))
  {
    hide UnaryTier, Level, Print, Printable;
    var ts := [Equals] + (Print(6, value) + rest);
    UnaryBack(target, ts);
    assert ts[1..] == Print(6, value) + rest;
    RoundTrip(value, rest);
  }

  /** In front of a binary operator the unary tier stops after the leftmost operand. */
  lemma {:induction false} LeftmostOnly(e: Expr, rest: seq<Token>) returns (first: Expr, left: seq<Token>)
    requires Printable(e) && Home(e) > 2
    ensures UnaryTier(Form(e) + rest) == Some(Parsed(first, left)) && left != [] && left[0].Oper?
    decreases e
  {
    var k := Tier(e.bop.op);
    left := [Oper(e.bop.op)] + (Print(1 + k, e.right) + rest);
    first := e.left;
    assert Form(e) + rest == Print(2 + k, e.left) + left;
    if Home(e.left) <= 2 || Home(e.left) > 2 + k {
      assert Print(2 + k, e.left) == Print(2, e.left);
      UnaryBack(e.left, left);
    } else {
      first, left := LeftmostOnly(e.left, left);
    }
  }

  /** An expression statement reads back exactly if it is of the unary tier or stronger: of
      `a + b` only `a` is taken. */
  lemma StatementExactly(e: Expr, rest: seq<Token>)
    requires Printable(e) && Ends(rest) && !Starts(rest, Equals)
    ensures AssignTier(Print(6, e) + rest) == Some(Parsed(e, rest)) <==> Home(e) <= 2
  {
    hide UnaryTier, Level;
    if Home(e) <= 2 {
      UnaryBack(e, rest);
      assert Print(6, e) == Print(2, e);
    } else {
      var first, left := LeftmostOnly(e, rest);
      assert Print(6, e) == Form(e);
    }
  }
}
