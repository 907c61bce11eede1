/** What a text means, from its characters to the value: numbers, operators, sequences, names,
    comments and strings. */
module TextMeaning {
  import opened Values
  import opened Syntax
  import opened Semantics
  import opened ExprLowering
  import opened ExpressionGrammar
  import opened Precedence
  import opened TextRoundTrip
  import opened NumeralText
  import opened ValueLaws
  import L = Lexing

  /** What the parser makes of a text. */
  function Read(text: string): Option<Parsed> {
    Level(4, Seen(L.LexAll(L.TABLE, text)))
  }

  // ---------------------------------------------------------------- numbers

  function Numeral(i: int): string {
    if i < 0 then "-" + Decimal(-i) else Decimal(i)
  }

  function Number(i: int): Expr {
    Literal(TkInt, Numeral(i))
  }

  lemma GoodNumeral(i: int)
    ensures GoodLiteral(TkInt, Numeral(i)) && LiteralValue(TkInt, Numeral(i)) == Int(i)
  {
    hide LiteralValue, KindOf, Decimal;
    var d := Decimal(Abs(i));
    IntegerText(Abs(i));
    KindsOfNumerals(d, []);
    NumeralStarts(d);
    assert "-"[0] == '-' && ("-" + d)[0] == '-' && ("-" + d)[1..] == d;
    assert forall k | 0 <= k < |Numeral(i)| :: L.IsNumeralChar(Numeral(i)[k]);
  }

  /** `r` is what two numbers and an operator sign must give. */
  ghost predicate Computes(sign: string, x: int, y: int, r: EvalResult) {
    match sign
    case "+" => r.Val? && r.v.Int? && InRange(r.v.i) && (r.v.i - (x + y)) % 0x1_0000_0000 == 0
    case "-" => r.Val? && r.v.Int? && InRange(r.v.i) && (r.v.i - (x - y)) % 0x1_0000_0000 == 0
    case "*" => r.Val? && r.v.Int? && InRange(r.v.i) && (r.v.i - x * y) % 0x1_0000_0000 == 0
    case "/" =>
      if y == 0 then r == Stops(MathError)
      else r.Val? && r.v.Int? && (InRange(x) && InRange(y) && !DivisionOverflows(x, y) ==> Divides(x, y, r.v.i, x - r.v.i * y))
    case "%" =>
      if y == 0 then r == Stops(MathError)
      else r.Val? && r.v.Int? && (InRange(x) && InRange(y) && !DivisionOverflows(x, y) ==> exists q :: Divides(x, y, q, r.v.i))
    case "==" => r.Val? && r.v == Bool(x == y)
    case "!=" => r.Val? && r.v == Bool(x != y)
    case "<" => r.Val? && r.v == Bool(x < y)
    case ">" => r.Val? && r.v == Bool(x > y)
    case "<=" => r.Val? && r.v == Bool(x <= y)
    case ">=" => r.Val? && r.v == Bool(x >= y)
    case _ => false
  }

  lemma Signs()
    ensures "+" != "-" && "+" != "*" && "+" != "/" && "+" != "%" && "-" != "*" && "-" != "/" && "-" != "%"
    ensures "*" != "/" && "*" != "%" && "/" != "%" && "<" != ">" && "==" != "!=" && "<=" != ">="
    ensures "<" !in {"+", "-", "*", "/", "%"} && ">" !in {"+", "-", "*", "/", "%"}
    ensures "==" != "<=" && "==" != ">=" && "!=" != "<=" && "!=" != ">="
  {
    assert "+"[0] == '+' && "-"[0] == '-' && "*"[0] == '*' && "/"[0] == '/' && "%"[0] == '%' && "<"[0] == '<' && ">"[0] == '>';
    assert "=="[0] == '=' && "!="[0] == '!' && "<="[0] == '<' && ">="[0] == '>';
  }

  lemma Results(op: Arith, x: int, y: int, r: EvalResult, heap: Heap)
    requires r == if MathFails(op, Int(x), Int(y)) then Stops(MathError) else Val(Apply(op, Int(x), Int(y)), heap)
    ensures Computes(SpellOperator(op), x, y, r)
  {
    Signs();
    hide Apply, Divides, Abs;
    MathFailsExactly(op, Int(x), Int(y));
    hide MathFails;
    match op
    case Add => IntegerResult(op, x, y);
    case Sub => IntegerResult(op, x, y);
    case Mul => IntegerResult(op, x, y);
    case Div => Quotients(x, y);
    case Mod => Quotients(x, y);
    case _ => OrderLaws(x, y, 0.0, 0.0);
  }

  lemma IntegerResult(op: Arith, x: int, y: int)
    requires op in {Add, Sub, Mul}
    ensures Apply(op, Int(x), Int(y)).Int?
    ensures var r := Apply(op, Int(x), Int(y)).i;
            && InRange(r)
            && (op == Add ==> (r - (x + y)) % 0x1_0000_0000 == 0)
            && (op == Sub ==> (r - (x - y)) % 0x1_0000_0000 == 0)
            && (op == Mul ==> (r - x * y) % 0x1_0000_0000 == 0)
  {
    assert Apply(op, Int(x), Int(y)).Int?;
    IntegerArithmetic(x, y, Apply(op, Int(x), Int(y)).i);
    hide Apply;
  }

  lemma Quotients(x: int, y: int)
    ensures y != 0 ==> Apply(Div, Int(x), Int(y)).Int? && Apply(Mod, Int(x), Int(y)).Int?
    ensures y != 0 && InRange(x) && InRange(y) && !DivisionOverflows(x, y) ==>
              var q, r := Apply(Div, Int(x), Int(y)).i, Apply(Mod, Int(x), Int(y)).i;
              Divides(x, y, q, r) && r == x - q * y
  {
    if y != 0 {
      DivisionResult(x, y);
    }
  }

  lemma DivisionResult(x: int, y: int)
    requires y != 0
    ensures Apply(Div, Int(x), Int(y)).Int? && Apply(Mod, Int(x), Int(y)).Int?
    ensures InRange(x) && InRange(y) && !DivisionOverflows(x, y) ==>
              var q, r := Apply(Div, Int(x), Int(y)).i, Apply(Mod, Int(x), Int(y)).i;
              Divides(x, y, q, r) && r == x - q * y
  {
    assert Apply(Div, Int(x), Int(y)).Int? && Apply(Mod, Int(x), Int(y)).Int?;
    if InRange(x) && InRange(y) && !DivisionOverflows(x, y) {
      IntegerDivision(x, y, Apply(Div, Int(x), Int(y)).i, Apply(Mod, Int(x), Int(y)).i);
    }
    hide Apply;
  }

  function Calculation(x: int, sign: string, y: int): string {
    Numeral(x) + " " + sign + " " + Numeral(y) + " "
  }

  /** Two numbers with an operator sign between, read and evaluated: the sum, difference and
      product modulo 2^32, quotient and remainder, or the comparison. */
  lemma CalculationMeans(x: int, op: Arith, y: int, fs: seq<Fun>, env: Env, heap: Heap, fuel: nat)
    ensures var p := Read(Calculation(x, SpellOperator(op), y));
            && p.Some? && p.value.rest == []
            && Computes(SpellOperator(op), x, y, Eval(fs, p.value.expr, env, heap, fuel))
  {
    hide LiteralValue, Apply, MathFails, Computes, Level, Seen, L.LexAll, GoodLiteral, Numeral, SpellOperator;
    var e := Binary(Operator.Arith(op), Number(x), Number(y));
    CalculationRead(x, op, y);
    GoodNumeral(x);
    GoodNumeral(y);
    assert Eval(fs, Number(x), env, heap, fuel) == Val(Int(x), heap) && Eval(fs, Number(y), env, heap, fuel) == Val(Int(y), heap);
    Results(op, x, y, Eval(fs, e, env, heap, fuel), heap);
  }

  lemma CalculationRead(x: int, op: Arith, y: int)
    ensures Read(Calculation(x, SpellOperator(op), y)) == Some(Parsed(Binary(Operator.Arith(op), Number(x), Number(y)), []))
  {
    hide Level, Seen, L.LexAll, Numeral, SpellOperator, UnaryTier, Calculation;
    var a, b := Lit(TkInt, Numeral(x)), Lit(TkInt, Numeral(y));
    CalculationSeen(x, op, y);
    LiteralOperand(Number(x));
    LiteralOperand(Number(y));
    EndsAtEnd();
    Single([a], Number(x), op, [b], Number(y), [], 4);
    assert [a] + ([Oper(op)] + ([b] + [])) == [a, Oper(op), b];
  }

  lemma CalculationSeen(x: int, op: Arith, y: int)
    ensures Seen(L.LexAll(L.TABLE, Calculation(x, SpellOperator(op), y))) == [Lit(TkInt, Numeral(x)), Oper(op), Lit(TkInt, Numeral(y))]
  {
    hide Seen, L.LexAll, GoodLiteral, Numeral, SpellOperator, L.ValidPiece, L.TABLE, L.Render, L.Expected;
    var ts := [Lit(TkInt, Numeral(x)), Oper(op), Lit(TkInt, Numeral(y))];
    var ps := [L.Piece(Numeral(x), " "), L.Piece(SpellOperator(op), " "), L.Piece(Numeral(y), " ")];
    GoodNumeral(x);
    GoodNumeral(y);
    assert IsBlank(" ") by { assert " "[0] == ' '; }
    hide IsBlank;
    TokensBack(ts, ps);
    L.LexingUndoesJoining(L.TABLE, ps);
    ThreePieces(Numeral(x), SpellOperator(op), Numeral(y));
  }

  lemma LiteralOperand(e: Expr)
    requires e.Literal?
    ensures Operand([Lit(e.kind, e.lexeme)], e)
  {
    PrintedOperand(e);
    hide UnaryTier;
    assert Print(0, e) == [Lit(e.kind, e.lexeme)];
  }

  lemma ThreePieces(a: string, b: string, c: string)
    ensures L.Render([L.Piece(a, " "), L.Piece(b, " "), L.Piece(c, " ")]) == a + " " + b + " " + c + " "
  {
    var p, q, r := L.Piece(a, " "), L.Piece(b, " "), L.Piece(c, " ");
    assert [p, q, r][1..] == [q, r] && [q, r][1..] == [r] && [r][1..] == [];
    assert L.Render([r]) == c + " " + [] == c + " ";
    assert L.Render([q, r]) == b + " " + (c + " ");
    assert a + " " + (b + " " + (c + " ")) == a + " " + b + " " + c + " ";
  }

  /** The two words for booleans. */
  lemma BooleanMeans(b: bool, fs: seq<Fun>, env: Env, heap: Heap, fuel: nat)
    ensures var p := Read(if b then "true " else "false ");
            p.Some? && p.value.rest == [] && Eval(fs, p.value.expr, env, heap, fuel) == Val(Bool(b), heap)
  {
    var word := if b then "true" else "false";
    WordsAreKept();
    var e := Literal(if b then TkTrue else TkFalse, word);
    hide L.TABLE, Level;
    assert "true "[..4] == "true" && "false "[..5] == "false";
    assert (if b then "true " else "false ") == word + " ";
    WordRead(e);
    assert LiteralValue(e.kind, word) == Bool(b);
  }

  /** The text is read to its end, and evaluates to `v` with nothing else changed. */
  ghost predicate Evaluates(text: string, v: Value, fs: seq<Fun>, env: Env, heap: Heap, fuel: nat) {
    Read(text).Some? && Read(text).value.rest == [] && Eval(fs, Read(text).value.expr, env, heap, fuel) == Val(v, heap)
  }

  predicate Scaled(v: Value, k: nat, n: nat) {
    v.Flt? && v.r * Ten(k) as real == n as real
  }

  /** The digits of a number with a point before the last `k` of them. */
  function PointDecimal(n: nat, k: nat): string
    requires k < |Decimal(n)|
  {
    var m := |Decimal(n)| - k;
    Decimal(n)[..m] + "." + Decimal(n)[m..]
  }

  lemma PointMeans(n: nat, k: nat, fs: seq<Fun>, env: Env, heap: Heap, fuel: nat) returns (v: Value)
    requires k < |Decimal(n)|
    ensures Evaluates(PointDecimal(n, k) + " ", v, fs, env, heap, fuel) && Scaled(v, k, n)
  {
    hide LiteralValue, Decimal, Ten, KindOf, GoodLiteral, Read;
    var m := |Decimal(n)| - k;
    var whole, part := Decimal(n)[..m], Decimal(n)[m..];
    DecimalPoint(n, k);
    var e := Literal(TkDouble, whole + "." + part);
    PointLiteral(whole, part);
    WordRead(e);
    v := LiteralValue(TkDouble, whole + "." + part);
  }

  lemma PointLiteral(whole: string, part: string)
    requires whole != [] && AllDigits(whole) && AllDigits(part)
    ensures GoodLiteral(TkDouble, whole + "." + part)
  {
    hide KindOf;
    KindsOfNumerals(whole, part);
    var s := whole + "." + part;
    NumeralStarts(s);
    assert "."[0] == '.' && forall i | 0 <= i < |s| :: L.IsNumeralChar(s[i]);
  }

  lemma WordsAreKept()
    ensures L.IsWord("true") && L.IsWord("false") && "true" != "false" && KindOf("true") == TkTrue && KindOf("false") == TkFalse
  {
    assert "true"[0] == 't' && "false"[0] == 'f';
  }

  /** A literal with a blank after it. */
  lemma WordRead(e: Expr)
    requires e.Literal? && GoodLiteral(e.kind, e.lexeme)
    ensures Read(e.lexeme + " ") == Some(Parsed(e, []))
  {
    hide Level, GoodLiteral, KindOf, L.LexAll, Seen;
    assert Printable(e) && GoodLiterals(e);
    assert Print(6, e) == [Lit(e.kind, e.lexeme)];
    ExpressionRead(e);
    var ps := Written(Print(6, e));
    assert ps == [L.Piece(e.lexeme, " ")] && ps[1..] == [];
    assert L.Render(ps) == e.lexeme + " " + [] == e.lexeme + " ";
  }

  // ---------------------------------------------------------------- sequences

  function Numbers(ns: seq<int>): seq<Expr> {
    if ns == [] then [] else [Number(ns[0])] + Numbers(ns[1..])
  }

  function Integers(ns: seq<int>): seq<Value> {
    if ns == [] then [] else [Int(ns[0])] + Integers(ns[1..])
  }

  lemma {:induction false} NumbersGood(ns: seq<int>)
    ensures AllPrintable(Numbers(ns)) && AllGood(Numbers(ns))
  {
    hide GoodLiteral, Numeral;
    if ns != [] {
      GoodNumeral(ns[0]);
      NumbersGood(ns[1..]);
    }
  }

  lemma {:induction false} ItemsPushed(fs: seq<Fun>, ns: seq<int>, id: nat, env: Env, heap: Heap, fuel: nat)
    requires id < |heap|
    ensures EvalItems(fs, Numbers(ns), id, env, heap, fuel)
            == Val(Obj(id), heap[id := SeqObj(heap[id].items + Integers(ns), heap[id].frozen)])
    decreases |ns|
  {
    hide Eval, PushItem, Integers;
    if ns == [] {
      NoIntegers(heap[id].items);
      assert heap == heap[id := SeqObj(heap[id].items, heap[id].frozen)];
    } else {
      NumberEvaluates(fs, ns[0], env, heap, fuel);
      var h := PushItem(heap, id, Int(ns[0]));
      Pushed(heap, id, Int(ns[0]), Integers(ns[1..]));
      ItemsPushed(fs, ns[1..], id, env, h, fuel);
      assert Numbers(ns)[0] == Number(ns[0]) && Numbers(ns)[1..] == Numbers(ns[1..]);
      MoreIntegers(ns);
    }
  }

  lemma NumberEvaluates(fs: seq<Fun>, i: int, env: Env, heap: Heap, fuel: nat)
    ensures Eval(fs, Number(i), env, heap, fuel) == Val(Int(i), heap)
  {
    hide LiteralValue, Numeral;
    GoodNumeral(i);
  }

  lemma NoIntegers(vs: seq<Value>)
    ensures Integers([]) == [] && vs + Integers([]) == vs
  {
  }

  lemma MoreIntegers(ns: seq<int>)
    requires ns != []
    ensures Integers(ns) == [Int(ns[0])] + Integers(ns[1..])
  {
  }

  lemma Pushed(heap: Heap, id: nat, v: Value, vs: seq<Value>)
    requires id < |heap|
    ensures var h := PushItem(heap, id, v);
            |h| == |heap| && h[id := SeqObj(h[id].items + vs, h[id].frozen)] == heap[id := SeqObj(heap[id].items + ([v] + vs), heap[id].frozen)]
  {
    assert heap[id].items + [v] + vs == heap[id].items + ([v] + vs);
  }

  /** A text in brackets is a tuple, in braces a list: a new object with the numbers in order,
      frozen exactly if it is a tuple. */
  lemma SequenceMeans(ns: seq<int>, isTuple: bool, fs: seq<Fun>, env: Env, heap: Heap, fuel: nat)
    ensures var e := Sequence(Numbers(ns), isTuple);
            && Printable(e)
            && TextOf(e) != [] && TextOf(e)[0] == (if isTuple then '[' else '{')
            && Read(TextOf(e)) == Some(Parsed(e, []))
            && Eval(fs, e, env, heap, fuel) == Val(Obj(|heap|), heap + [SeqObj(Integers(ns), isTuple)])
  {
    hide LiteralValue, Numeral, GoodLiteral;
    NumbersGood(ns);
    var e := Sequence(Numbers(ns), isTuple);
    assert Printable(e) && GoodLiterals(e);
    ExpressionRead(e);
    SequenceStarts(e);
    ItemsPushed(fs, ns, |heap|, env, heap + [SeqObj([], false)], fuel);
    hide EvalItems, Printable, TextOf, Read;
    assert [] + Integers(ns) == Integers(ns);
    assert (heap + [SeqObj([], false)])[|heap| := SeqObj(Integers(ns), false)] == heap + [SeqObj(Integers(ns), false)];
    assert (heap + [SeqObj(Integers(ns), false)])[|heap| := SeqObj(Integers(ns), true)] == heap + [SeqObj(Integers(ns), true)];
  }

  lemma ExpressionRead(e: Expr)
    requires Printable(e) && GoodLiterals(e)
    ensures Read(TextOf(e)) == Some(Parsed(e, []))
  {
    hide Level, Print, Printable, GoodLiterals, Spells, Written, L.LexAll, L.Render, Seen;
    EndsAtEnd();
    assert Print(6, e) + [] == Print(6, e);
    TextBack(e, [], Written(Print(6, e)));
  }

  lemma PrintedSequence(e: Expr)
    requires e.Sequence? && Printable(e)
    ensures Print(6, e) != [] && Print(6, e)[0] == if e.isTuple then OpenBracket else OpenBrace
  {
    hide PrintList, AllPrintable;
    assert Home(e) == 0;
  }

  lemma SequenceStarts(e: Expr)
    requires e.Sequence? && Printable(e)
    ensures TextOf(e) != [] && TextOf(e)[0] == if e.isTuple then '[' else '{'
  {
    var ts := Print(6, e);
    PrintedSequence(e);
    hide Print;
    assert ts[0] == if e.isTuple then OpenBracket else OpenBrace;
    var ps := Written(ts);
    hide Written;
    assert ps[0].text == Spell(ts[0]);
    assert "["[0] == '[' && "{"[0] == '{';
    L.RenderFirst(ps);
  }

  // ---------------------------------------------------------------- comments and strings

  lemma {:induction false} RunUntil(text: string, c: char, more: string)
    requires c !in text
    ensures L.Run(text + [c] + more, x => x != c) == |text|
  {
    var rest := text + [c] + more;
    L.RunStops(text, [c] + more, x => x != c);
    assert rest == text + ([c] + more);
  }

  lemma BetweenReads(c: char, text: string, more: string, tag: L.Tag)
    requires c !in text
    ensures var rest := [c] + text + [c] + more;
            && L.Between(rest, tag) == L.Scanned(tag, 1, |text|, |text| + 2)
            && L.TextOf(rest, L.Scanned(tag, 1, |text|, |text| + 2)) == text && rest[|text| + 2..] == more
  {
    var rest := [c] + text + [c] + more;
    assert rest[1..] == text + [c] + more;
    RunUntil(text, c, more);
    assert L.Run(rest[1..], x => x != rest[0]) == |text| by { SameRun(rest[1..], c, rest[0]); }
    assert rest[1..|text| + 1] == text;
    hide L.Run;
  }

  lemma SameRun(s: string, c: char, d: char)
    requires c == d
    ensures L.Run(s, x => x != c) == L.Run(s, x => x != d)
  {
  }

  /** A text between number signs is a comment, which the parser does not see. */
  lemma CommentMeans(text: string, more: string)
    requires '#' !in text
    ensures L.LexAll(L.TABLE, "#" + text + "#" + more) == [L.Token(L.Comment, text)] + L.LexAll(L.TABLE, more)
    ensures Seen(L.LexAll(L.TABLE, "#" + text + "#" + more)) == Seen(L.LexAll(L.TABLE, more))
  {
    hide L.TABLE, L.Between, L.TextOf;
    assert "#" == ['#'];
    var rest := "#" + text + "#" + more;
    assert rest[0] == '#';
    BetweenReads('#', text, more, L.Comment);
    assert L.First(L.TABLE, rest) == L.Between(rest, L.Comment);
    hide L.First;
    SeenFirst(L.Token(L.Comment, text), L.LexAll(L.TABLE, more));
  }

  /** A text between quotes is one string literal. */
  lemma StringMeans(text: string, more: string)
    requires '\"' !in text
    ensures L.LexAll(L.TABLE, "\"" + text + "\"" + more) == [L.Token(L.LiteralString, text)] + L.LexAll(L.TABLE, more)
    ensures Seen(L.LexAll(L.TABLE, "\"" + text + "\"" + more)) == [Lit(TkOther, text)] + Seen(L.LexAll(L.TABLE, more))
  {
    hide L.TABLE, L.Between, L.TextOf;
    assert "\"" == ['\"'];
    var rest := "\"" + text + "\"" + more;
    assert rest[0] == '\"';
    BetweenReads('\"', text, more, L.LiteralString);
    assert L.First(L.TABLE, rest) == L.Between(rest, L.LiteralString);
    hide L.First;
    SeenFirst(L.Token(L.LiteralString, text), L.LexAll(L.TABLE, more));
  }

  /** Without the second delimiter the rest of the source is one unknown token. */
  lemma UnclosedMeans(c: char, text: string)
    requires (c == '#' || c == '\"') && c !in text
    ensures L.LexAll(L.TABLE, [c] + text) == [L.Token(L.Unknown, text)]
  {
    hide L.TABLE;
    var rest := [c] + text;
    L.RunStops(text, [], x => x != c);
    assert rest[1..] == text && text + [] == text;
    assert L.Run(rest[1..], x => x != rest[0]) == |text| by { SameRun(text, c, rest[0]); }
    hide L.Run;
    assert L.First(L.TABLE, rest) == L.Scanned(L.Unknown, 1, |text| + 1, |text| + 1);
    assert L.TextOf(rest, L.Scanned(L.Unknown, 1, |text| + 1, |text| + 1)) == text;
    L.LexNothing(L.TABLE);
    hide L.First, L.TextOf;
    assert rest[|text| + 1..] == [];
  }

  lemma SeenFirst(t: L.Token, ts: seq<L.Token>)
    ensures Seen([t] + ts) == See(t) + Seen(ts)
    ensures t.tag == L.Comment ==> Seen([t] + ts) == Seen(ts)
    ensures t.tag == L.LiteralString ==> Seen([t] + ts) == [Lit(TkOther, t.text)] + Seen(ts)
  {
    assert ([t] + ts)[1..] == ts && [] + Seen(ts) == Seen(ts);
  }

  // ---------------------------------------------------------------- names

  const RESERVED := {
    "fn", "import", "fun", "native", "def", "if", "else", "match", "pat", "_", "return", "while", "break", "true", "false"}

  predicate IsNameText(s: string) {
    && s != [] && !('0' <= s[0] <= '9')
    && forall i | 0 <= i < |s| :: 'a' <= s[i] <= 'z' || 'A' <= s[i] <= 'Z' || s[i] == '_' || '0' <= s[i] <= '9'
  }

  /** Letters, digits and underscores that do not begin with a digit are a name, unless the word
      is reserved. */
  lemma NameMeans(s: string)
    requires IsNameText(s)
    ensures Seen(L.LexAll(L.TABLE, s + " ")) == [Lit(TkIdent, s)] <==> s !in RESERVED
  {
    assert L.IsWord(s);
    var p := L.Piece(s, " ");
    assert " "[0] == ' ' && L.ValidPiece(p);
    hide L.IsWord, L.LexAll, L.ValidPiece, L.IsNumeral, L.IsOperator, L.IsMark, EntryToken, IsNameText, L.TagOf, RESERVED, L.TABLE;
    L.LexingUndoesJoining(L.TABLE, [p]);
    assert L.Render([p]) == s + " " by { assert [p][1..] == [] && s + " " + [] == s + " "; }
    NameTag(s);
    OneSeen(p);
  }

  lemma NameTag(s: string)
    requires L.IsWord(s)
    ensures L.TagOf(L.TABLE, s) == if s in RESERVED then L.Entry(s) else L.Identifier
  {
    SignsAreNoWords();
    assert s in L.TABLE <==> s in RESERVED;
    hide L.TABLE, RESERVED;
  }

  lemma SignsAreNoWords()
    ensures forall s | L.IsWord(s) :: s !in {"*", "/", "%", "+", "-", "==", "!=", "<", ">", "<=", ">=", "=", "=>"}
  {
    assert forall s: string | L.IsWord(s) :: IsAlpha(s[0]);
    assert "*"[0] == '*' && "/"[0] == '/' && "%"[0] == '%' && "+"[0] == '+' && "-"[0] == '-' && "="[0] == "=="[0] == "=>"[0] == '=';
    assert "!="[0] == '!' && "<"[0] == "<="[0] == '<' && ">"[0] == ">="[0] == '>';
  }

  lemma OneSeen(p: L.Piece)
    ensures L.TagOf(L.TABLE, p.text) == L.Identifier ==> Seen(L.Expected(L.TABLE, [p])) == [Lit(TkIdent, p.text)]
    ensures L.TagOf(L.TABLE, p.text).Entry? ==> Seen(L.Expected(L.TABLE, [p])) == [EntryToken(L.TagOf(L.TABLE, p.text).text)]
    ensures forall text :: !(EntryToken(text).Lit? && EntryToken(text).kind == TkIdent)
  {
    hide L.TABLE, L.TagOf;
    assert [p][1..] == [];
    var first, gap := L.Token(L.TagOf(L.TABLE, p.text), p.text), L.Token(L.Spaces, p.gap);
    assert L.Expected(L.TABLE, [p]) == [first, gap] + [] == [first] + [gap];
    SeenFirst(first, [gap]);
    assert [gap][1..] == [] && Seen([gap]) == [] + [] == [];
  }
}
