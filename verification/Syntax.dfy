/** Abstract syntax (src/syntax/exprs.hpp, src/syntax/stmts.hpp). Tokens are reduced to
    their kind and lexeme. */
module Syntax {
  import opened Values

  datatype TokenKind = TkFalse | TkTrue | TkInt | TkDouble | TkIdent | TkOther

  datatype Operator = Access | Negate | Arith(op: Arith) | AssignOp

  datatype Expr =
    | Literal(kind: TokenKind, lexeme: string)
    | Sequence(items: seq<Expr>, isTuple: bool)
    | Lambda
    | Call(callee: Expr, args: seq<Expr>)
    | Unary(uop: Operator, inner: Expr)
    | Binary(bop: Operator, left: Expr, right: Expr)
    | Assign(target: Expr, value: Expr)

  datatype Else = NoElse | Else(body: seq<Stmt>)

  datatype Stmt =
    | ExprStmt(expr: Expr)
    | LocalDef(name: string, init: Expr)
    | If(cond: Expr, thn: seq<Stmt>, els: Else)
    | Return(result: Expr)
    | While(check: Expr, body: seq<Stmt>)
    | Break

  datatype Fun = Fun(name: string, params: seq<string>, body: seq<Stmt>)

  datatype Decl = Function(fun: Fun) | NativeStub(name: string, params: seq<string>) | Import

  type Program = seq<Decl>

  /** The functions of a program, in source order. */
  function Functions(p: Program): seq<Fun> {
    if p == [] then []
    else (if p[0].Function? then [p[0].fun] else []) + Functions(p[1..])
  }

  predicate IsDigit(c: char) {
    '0' <= c <= '9'
  }

  predicate IsAlpha(c: char) {
    'A' <= c <= 'Z' || 'a' <= c <= 'z' || c == '_'
  }

  const KEYWORDS := {"fn", "import", "fun", "native", "def", "if", "else", "match", "pat", "_", "return", "while", "break"}

  function Count(s: string, c: char): nat {
    if s == [] then 0 else (if s[0] == c then 1 else 0) + Count(s[1..], c)
  }

  /** A digit, or a minus sign and a digit, starts a numeral. */
  predicate StartsNumeral(s: string) {
    s != [] && (IsDigit(s[0]) || (s[0] == '-' && |s| > 1 && IsDigit(s[1])))
  }

  /** Numerals may hold points and minus signs anywhere: how many decides their kind. */
  function NumeralKind(s: string): TokenKind {
    if Count(s, '-') > 1 then TkOther
    else if Count(s, '.') == 0 then TkInt
    else if Count(s, '.') == 1 then TkDouble
    else TkOther
  }

  /** The kind the lexer gives to a word or numeral. */
  function KindOf(lexeme: string): TokenKind {
    if lexeme == "true" then TkTrue
    else if lexeme == "false" then TkFalse
    else if StartsNumeral(lexeme) then NumeralKind(lexeme)
    else if lexeme != [] && IsAlpha(lexeme[0]) && lexeme !in KEYWORDS then TkIdent
    else TkOther
  }

  function DigitsValue(digits: string): nat {
    if digits == [] then 0
    else 10 * DigitsValue(digits[..|digits| - 1])
         + (var c := digits[|digits| - 1]; if IsDigit(c) then c as int - '0' as int else 0)
  }

  /** Decimal fraction denoted by the digits after the point. */
  function FractionValue(digits: string): real {
    if digits == [] then 0.0
    else ((if IsDigit(digits[0]) then (digits[0] as int - '0' as int) as real else 0.0) + FractionValue(digits[1..])) / 10.0
  }

  function PointIndex(lexeme: string): (k: nat)
    ensures k <= |lexeme|
  {
    if lexeme == [] || lexeme[0] == '.' then 0 else 1 + PointIndex(lexeme[1..])
  }

  /** What a conversion reads: it stops at a minus sign that is not the first character. */
  function UpToMinus(s: string): string {
    if s == [] || s[0] == '-' then [] else [s[0]] + UpToMinus(s[1..])
  }

  function Magnitude(lexeme: string): string {
    UpToMinus(if lexeme != [] && lexeme[0] == '-' then lexeme[1..] else lexeme)
  }

  predicate Negative(lexeme: string) {
    lexeme != [] && lexeme[0] == '-'
  }

  /** The value of a literal token (`std::stoi`, `std::stod` on its lexeme). */
  function LiteralValue(kind: TokenKind, lexeme: string): Value {
    match kind
    case TkTrue => Bool(lexeme == "true")
    case TkFalse => Bool(lexeme == "true")
    case TkInt =>
      var v: int := DigitsValue(Magnitude(lexeme));
      Int(if Negative(lexeme) then -v else v)
    case TkDouble =>
      var m := Magnitude(lexeme);
      var k := PointIndex(m);
      var v := DigitsValue(m[..k]) as real + FractionValue(if k < |m| then m[k + 1..] else []);
      Flt(if Negative(lexeme) then -v else v)
    case _ => Dud
  }
}
