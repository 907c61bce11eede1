/** From an expression to text and back, through the printer, the lexer and the parser. */
module TextRoundTrip {
  import opened Values
  import opened Syntax
  import opened ExprLowering
  import opened ExpressionGrammar
  import L = Lexing

  // ---------------------------------------------------------------- from lexer to parser

  function MarkToken(c: char): Token {
    match c
    case '(' => OpenParen
    case ')' => CloseParen
    case '{' => OpenBrace
    case '}' => CloseBrace
    case '[' => OpenBracket
    case ']' => CloseBracket
    case ',' => Comma
    case '.' => Dot
    case _ => OtherToken
  }

  function OperatorToken(text: string): Token {
    if |text| == 1 then
      match text[0]
      case '*' => Oper(Mul)
      case '/' => Oper(Div)
      case '%' => Oper(Mod)
      case '+' => Oper(Add)
      case '-' => Oper(Sub)
      case '<' => Oper(Lt)
      case '>' => Oper(Gt)
      case '=' => Equals
      case _ => OtherToken
    else if |text| == 2 && text[1] == '=' then
      match text[0]
      case '=' => Oper(Equ)
      case '!' => Oper(Neq)
      case '<' => Oper(Lte)
      case '>' => Oper(Gte)
      case _ => OtherToken
    else OtherToken
  }

  function EntryToken(text: string): Token {
    if text == "true" then Lit(TkTrue, text)
    else if text == "false" then Lit(TkFalse, text)
    else if text == "fn" then KeywordFn
    else OperatorToken(text)
  }

  /** What the parser sees of a token: blanks and comments are skipped. */
  function See(t: L.Token): seq<Token> {
    match t.tag
    case Spaces => []
    case Comment => []
    case Identifier => [Lit(TkIdent, t.text)]
    case LiteralInt => [Lit(TkInt, t.text)]
    case LiteralDouble => [Lit(TkDouble, t.text)]
    case LiteralString => [Lit(TkOther, t.text)]
    case Punctuation(c) => [MarkToken(c)]
    case Entry(text) => [EntryToken(text)]
    case _ => [OtherToken]
  }

  function Seen(ts: seq<L.Token>): seq<Token> {
    if ts == [] then [] else See(ts[0]) + Seen(ts[1..])
  }

  // ---------------------------------------------------------------- spelling

  function SpellOperator(op: Arith): string {
    match op
    case Mul => "*"
    case Div => "/"
    case Mod => "%"
    case Add => "+"
    case Sub => "-"
    case Equ => "=="
    case Neq => "!="
    case Lt => "<"
    case Gt => ">"
    case Lte => "<="
    case Gte => ">="
  }

  function Spell(t: Token): string {
    match t
    case Lit(_, lexeme) => lexeme
    case Oper(op) => SpellOperator(op)
    case OpenParen => "("
    case CloseParen => ")"
    case OpenBrace => "{"
    case CloseBrace => "}"
    case OpenBracket => "["
    case CloseBracket => "]"
    case Comma => ","
    case Dot => "."
    case Equals => "="
    case KeywordFn => "fn"
    case OtherToken => ""
  }

  /** A literal whose lexeme is a word or numeral of its kind. */
  predicate GoodLiteral(kind: TokenKind, lexeme: string) {
    (L.IsWord(lexeme) || L.IsNumeral(lexeme)) && kind == KindOf(lexeme) && kind != TkOther
  }

  predicate Spellable(t: Token) {
    t != OtherToken && (t.Lit? ==> GoodLiteral(t.kind, t.lexeme))
  }

  lemma OperatorForm(op: Arith)
    ensures var s := SpellOperator(op); L.IsOperator(s) && !L.IsNumeral(s) && !L.IsWord(s)
  {
    hide L.TABLE;
  }

  lemma OperatorListed(op: Arith)
    ensures SpellOperator(op) in L.TABLE
  {
  }

  lemma OperatorReads(op: Arith)
    ensures EntryToken(SpellOperator(op)) == Oper(op)
  {
    hide L.TABLE;
    var s := SpellOperator(op);
    assert |s| <= 2 && |"true"| == 4 && |"false"| == 5 && "fn"[0] == 'f' && s[0] != 'f';
  }

  lemma EqualsBack()
    ensures L.IsOperator("=") && !L.IsNumeral("=") && !L.IsWord("=") && EntryToken("=") == Equals
    ensures L.IsWord("fn") && EntryToken("fn") == KeywordFn
  {
    hide L.TABLE;
    assert "="[0] == '=' && |"="| == 1 && |"true"| == 4 && |"false"| == 5 && |"fn"| == 2 && "fn"[0] == 'f' && "fn"[1] == 'n';
  }

  lemma EqualsListed()
    ensures "=" in L.TABLE && "fn" in L.TABLE
  {
  }

  ghost predicate Lexeme(s: string) {
    L.IsWord(s) || L.IsNumeral(s) || L.IsOperator(s) || L.IsMark(s)
  }

  lemma WordOrNumeralBack(kind: TokenKind, lexeme: string)
    requires GoodLiteral(kind, lexeme)
    ensures Lexeme(lexeme) && See(L.Token(L.TagOf(L.TABLE, lexeme), lexeme)) == [Lit(kind, lexeme)]
  {
    hide KindOf, L.IsWord, L.IsNumeral, L.IsOperator, L.IsMark, L.TagOf, L.TABLE;
    L.KindsAgree(lexeme);
  }

  lemma EntryBack(s: string, t: Token)
    requires (L.IsOperator(s) && !L.IsNumeral(s) && !L.IsWord(s)) || L.IsWord(s)
    requires s in L.TABLE && EntryToken(s) == t
    ensures Lexeme(s) && See(L.Token(L.TagOf(L.TABLE, s), s)) == [t]
  {
    hide L.IsWord, L.IsNumeral, EntryToken, L.TABLE;
    assert L.IsOperator(s) ==> !L.IsMark(s);
  }

  lemma MarkBack(c: char, t: Token)
    requires L.IsPunctuation(c) && MarkToken(c) == t
    ensures Lexeme([c]) && See(L.Token(L.TagOf(L.TABLE, [c]), [c])) == [t]
  {
    hide L.TagOf, L.TABLE, Lexeme, See;
    MarkTag(c);
    MarkSeen(c);
  }

  lemma MarkTag(c: char)
    requires L.IsPunctuation(c)
    ensures Lexeme([c]) && L.TagOf(L.TABLE, [c]) == L.Punctuation(c)
  {
    MarkOnly([c]);
    hide L.IsWord, L.IsNumeral, L.TABLE, L.WordTag, L.NumeralTag, L.OperatorTag, L.IsOperator;
  }

  lemma MarkSeen(c: char)
    ensures See(L.Token(L.Punctuation(c), [c])) == [MarkToken(c)]
  {
    hide MarkToken;
  }

  /** A spelled token is a lexeme, and reads back. */
  lemma TokenBack(t: Token)
    requires Spellable(t)
    ensures Lexeme(Spell(t)) && See(L.Token(L.TagOf(L.TABLE, Spell(t)), Spell(t))) == [t]
  {
    hide Lexeme, See, L.TagOf, L.TABLE, EntryToken, L.IsWord, L.IsNumeral, L.IsOperator, GoodLiteral, SpellOperator;
    match t
    case Lit(kind, lexeme) => WordOrNumeralBack(kind, lexeme);
    case Oper(op) =>
      OperatorForm(op);
      OperatorListed(op);
      OperatorReads(op);
      EntryBack(SpellOperator(op), t);
    case Equals =>
      EqualsBack();
      EqualsListed();
      EntryBack("=", t);
    case KeywordFn =>
      EqualsBack();
      EqualsListed();
      EntryBack("fn", t);
    case _ => MarkTokenBack(t);
  }

  lemma MarkTokenBack(t: Token)
    requires t != OtherToken && !t.Lit? && !t.Oper? && t != Equals && t != KeywordFn
    ensures Lexeme(Spell(t)) && See(L.Token(L.TagOf(L.TABLE, Spell(t)), Spell(t))) == [t]
  {
    hide Lexeme, See, L.TagOf, L.TABLE;
    var s := Spell(t);
    assert |s| == 1 && s == [s[0]];
    MarkBack(s[0], t);
  }

  lemma MarkOnly(s: string)
    requires |s| == 1 && L.IsPunctuation(s[0])
    ensures !L.IsWord(s) && !L.IsNumeral(s)
  {
  }

  /** Spaces, tabs and line ends. */
  predicate IsBlank(s: string) {
    s != [] && forall i | 0 <= i < |s| :: s[i] in {' ', '\t', '\r', '\n'}
  }

  /** A lexeme for each token, each with blanks after it. */
  ghost predicate Spells(ps: seq<L.Piece>, ts: seq<Token>) {
    |ps| == |ts| && forall i | 0 <= i < |ts| :: ps[i].text == Spell(ts[i]) && IsBlank(ps[i].gap)
  }

  ghost predicate AllSpellable(ts: seq<Token>) {
    forall i | 0 <= i < |ts| :: Spellable(ts[i])
  }

  /** Any tokens written out with blanks are read back. */
  lemma {:induction false} TokensBack(ts: seq<Token>, ps: seq<L.Piece>)
    requires Spells(ps, ts) && AllSpellable(ts)
    ensures forall i | 0 <= i < |ps| :: L.ValidPiece(ps[i])
    ensures Seen(L.Expected(L.TABLE, ps)) == ts
    decreases |ts|
  {
    hide L.TagOf, L.TABLE, Spell, See, Spellable, Lexeme, IsBlank;
    if ts != [] {
      TokenBack(ts[0]);
      TokensBack(ts[1..], ps[1..]);
      ValidFirst(ps[0]);
      forall i | 0 <= i < |ps| ensures L.ValidPiece(ps[i]) {
        if i > 0 {
          assert ps[1..][i - 1] == ps[i];
        }
      }
      hide L.ValidPiece, Seen;
      GapUnseen(ps[0].gap);
      SeenTwo(L.Token(L.TagOf(L.TABLE, ps[0].text), ps[0].text), L.Token(L.Spaces, ps[0].gap), L.Expected(L.TABLE, ps[1..]));
    }
  }

  lemma ValidFirst(p: L.Piece)
    requires Lexeme(p.text) && IsBlank(p.gap)
    ensures L.ValidPiece(p)
  {
  }

  lemma SeenTwo(a: L.Token, b: L.Token, rest: seq<L.Token>)
    requires See(b) == []
    ensures Seen([a, b] + rest) == See(a) + Seen(rest)
  {
    hide See;
    assert ([a, b] + rest)[1..] == [b] + rest && ([b] + rest)[1..] == rest;
    assert Seen([b] + rest) == [] + Seen(rest);
  }

  lemma GapUnseen(gap: string)
    ensures See(L.Token(L.Spaces, gap)) == []
  {
  }

  /** Every literal of the expression is a word or numeral of its kind. */
  predicate GoodLiterals(e: Expr) {
    match e
    case Literal(kind, lexeme) => GoodLiteral(kind, lexeme)
    case Sequence(items, _) => AllGood(items)
    case Call(callee, args) => GoodLiterals(callee) && AllGood(args)
    case Unary(_, inner) => GoodLiterals(inner)
    case Binary(_, left, right) => GoodLiterals(left) && GoodLiterals(right)
    case _ => false
  }

  predicate AllGood(es: seq<Expr>) {
    es == [] || (GoodLiterals(es[0]) && AllGood(es[1..]))
  }

  /** Lists around a token. */
  lemma Around(a: seq<Token>, t: Token, b: seq<Token>)
    requires AllSpellable(a) && Spellable(t) && AllSpellable(b)
    ensures AllSpellable(a + [t] + b)
  {
    hide Spellable;
  }

  lemma {:induction false} FormSpellable(e: Expr)
    requires Printable(e) && GoodLiterals(e)
    ensures AllSpellable(Form(e)) && AllSpellable(PrintHead(e)) && forall level :: AllSpellable(Print(level, e))
    decreases e, 1
  {
    hide Form, Printable, GoodLiterals;
    PartsSpellable(e);
    assert AllSpellable([]);
    Around([], OpenParen, Form(e));
    Around([] + [OpenParen] + Form(e), CloseParen, []);
    assert [] + [OpenParen] + Form(e) + [CloseParen] + [] == [OpenParen] + Form(e) + [CloseParen];
  }

  lemma {:induction false} PartsSpellable(e: Expr)
    requires Printable(e) && GoodLiterals(e)
    ensures AllSpellable(Form(e))
    decreases e, 0
  {
    hide GoodLiteral, Print, PrintHead, PrintList;
    match e
    case Literal(_, _) =>
    case Sequence(items, isTuple) =>
      ListSpellable(0, items);
      Around([], if isTuple then OpenBracket else OpenBrace, PrintList(0, items));
      Around([if isTuple then OpenBracket else OpenBrace] + PrintList(0, items), if isTuple then CloseBracket else CloseBrace, []);
    case Call(callee, args) =>
      FormSpellable(callee);
      ListSpellable(6, args);
      Around(PrintHead(callee), OpenParen, PrintList(6, args));
      Around(PrintHead(callee) + [OpenParen] + PrintList(6, args), CloseParen, []);
    case Unary(_, inner) =>
      FormSpellable(inner);
      Around([], Oper(Sub), Print(1, inner));
    case Binary(bop, left, right) =>
      FormSpellable(left);
      FormSpellable(right);
      hide AllSpellable;
      if bop.Arith? {
        Around(Print(2 + Tier(bop.op), left), Oper(bop.op), Print(1 + Tier(bop.op), right));
      } else {
        Around(PrintHead(left), Dot, Print(1, right));
      }
  }

  lemma {:induction false} ListSpellable(level: nat, es: seq<Expr>)
    requires AllPrintable(es) && AllGood(es)
    ensures AllSpellable(PrintList(level, es)) && AllSpellable(PrintMore(level, es))
    decreases es, 2
  {
    hide Print, Printable, GoodLiterals, GoodLiteral;
    if es != [] {
      FormSpellable(es[0]);
      ListSpellable(level, es[1..]);
    }
  }

  /** An expression printed, written out with any blanks, lexed and parsed is the expression
      again, whatever tokens follow that cannot go on with it. */
  lemma TextBack(e: Expr, rest: seq<Token>, ps: seq<L.Piece>)
    requires Printable(e) && GoodLiterals(e) && Ends(rest) && AllSpellable(rest) && Spells(ps, Print(6, e) + rest)
    ensures Level(4, Seen(L.LexAll(L.TABLE, L.Render(ps)))) == Some(Parsed(e, rest))
  {
    hide Level, Print, Printable, GoodLiterals, Spell, Spellable, Ends, L.LexAll, L.ValidPiece, L.Render, Seen;
    FormSpellable(e);
    assert AllSpellable(Print(6, e));
    TokensBack(Print(6, e) + rest, ps);
    L.LexingUndoesJoining(L.TABLE, ps);
    RoundTrip(e, rest);
  }

  /** A blank after each token. */
  function Written(ts: seq<Token>): (ps: seq<L.Piece>)
    ensures Spells(ps, ts)
  {
    seq(|ts|, i requires 0 <= i < |ts| => L.Piece(Spell(ts[i]), " "))
  }

  function TextOf(e: Expr): string
    requires Printable(e)
  {
    L.Render(Written(Print(6, e)))
  }

  /** Expressions with the same text are equal: the text says everything. */
  lemma TextInjective(a: Expr, b: Expr)
    requires Printable(a) && GoodLiterals(a) && Printable(b) && GoodLiterals(b) && TextOf(a) == TextOf(b)
    ensures a == b
  {
    hide Level, Print, Printable, GoodLiterals, Spells, Written, L.LexAll, L.Render, Seen;
    EndsAtEnd();
    assert Print(6, a) + [] == Print(6, a) && Print(6, b) + [] == Print(6, b);
    TextBack(a, [], Written(Print(6, a)));
    TextBack(b, [], Written(Print(6, b)));
  }
}
