/** The lexer (src/frontend/lexing.cpp): what one call reads off the rest of the source, and
    the object that does it. Lines and columns are not part of this model. */
module Lexing {
  import opened Syntax
  import opened Values

  /** `Entry`: a word or operator of the table that the driver fills in. */
  datatype Tag =
    | Unknown | Spaces | Comment | Identifier | LiteralInt | LiteralDouble | LiteralString | EndOfFile
    | Punctuation(c: char) | Entry(text: string)

  /** The driver's table (src/driver/driver.cpp:36-63). */
  const TABLE := KEYWORDS + {"true", "false", "*", "/", "%", "+", "-", "==", "!=", "<", ">", "<=", ">=", "=", "=>"}

  predicate IsSpace(c: char) {
    c == ' ' || c == '\t' || c == '\r' || c == '\n'
  }

  predicate IsAlnum(c: char) {
    IsDigit(c) || IsAlpha(c)
  }

  predicate IsNumeralChar(c: char) {
    IsDigit(c) || c == '.' || c == '-'
  }

  predicate IsOperatorChar(c: char) {
    c == '*' || c == '/' || c == '%' || c == '+' || c == '-' || c == '!' || c == ':' || c == '=' || c == '<' || c == '>'
  }

  predicate IsPunctuation(c: char) {
    c == '[' || c == ']' || c == '{' || c == '}' || c == '(' || c == ')' || c == ',' || c == ':' || c == '.'
  }

  /** Length of the longest prefix of characters that `p` accepts. */
  function Run(s: string, p: char -> bool): (n: nat)
    ensures n <= |s| && (forall i | 0 <= i < n :: p(s[i])) && (n < |s| ==> !p(s[n]))
  {
    if s == [] || !p(s[0]) then 0 else 1 + Run(s[1..], p)
  }

  /** What one call reads: a token from offset `from` to offset `upto`, and how far it goes. */
  datatype Scanned = Scanned(tag: Tag, from: nat, upto: int, used: nat)

  /** A run that reaches the end of the source records one position too many. */
  function RunToken(rest: string, n: nat, tag: Tag): Scanned {
    Scanned(tag, 0, if n < |rest| then n - 1 else n, n)
  }

  function Single(tag: Tag): Scanned {
    Scanned(tag, 0, 0, 1)
  }

  /** Text between two delimiters; without the second the whole rest is unknown. */
  function Between(rest: string, tag: Tag): Scanned
    requires rest != []
  {
    var n := Run(rest[1..], c => c != rest[0]);
    if n < |rest| - 1 then Scanned(tag, 1, n, n + 2) else Scanned(Unknown, 1, n + 1, n + 1)
  }

  function WordTag(table: set<string>, text: string): Tag {
    if text in table then Entry(text) else Identifier
  }

  function OperatorTag(table: set<string>, text: string): Tag {
    if text in table then Entry(text) else Unknown
  }

  function NumeralTag(text: string): Tag {
    match NumeralKind(text)
    case TkInt => LiteralInt
    case TkDouble => LiteralDouble
    case _ => Unknown
  }

  /** One call on a rest that is not empty. */
  function First(table: set<string>, rest: string): Scanned
    requires rest != []
  {
    var c := rest[0];
    if IsSpace(c) then RunToken(rest, Run(rest, IsSpace), Spaces)
    else if c == '\0' then Single(EndOfFile)
    else if c == '#' then Between(rest, Comment)
    else if c == '\"' then Between(rest, LiteralString)
    else if IsPunctuation(c) then Single(Punctuation(c))
    else if IsAlpha(c) then
      var n := Run(rest, IsAlnum);
      RunToken(rest, n, WordTag(table, rest[..n]))
    else if StartsNumeral(rest) then
      var n := Run(rest, IsNumeralChar);
      RunToken(rest, n, NumeralTag(rest[..n]))
    else if IsOperatorChar(c) then
      var n := Run(rest, IsOperatorChar);
      RunToken(rest, n, OperatorTag(table, rest[..n]))
    else Single(Unknown)
  }

  /** Every call consumes something, and no more than there is. */
  lemma FirstAdvances(table: set<string>, rest: string)
    requires rest != []
    ensures 0 < First(table, rest).used <= |rest|
  {
  }

  /** Blanks, words, numerals and operators are read in a loop. */
  predicate IsRun(rest: string)
    requires rest != []
  {
    var c := rest[0];
    IsSpace(c) || (!IsPunctuation(c) && (IsAlpha(c) || StartsNumeral(rest) || IsOperatorChar(c)))
  }

  /** The recorded bounds are those of the characters consumed, but for a token that is read
      in a loop and ends the source: its end is one too far. */
  lemma BoundsExactly(table: set<string>, rest: string)
    requires rest != [] && rest[0] != '#' && rest[0] != '\"'
    ensures var s := First(table, rest);
            s.from == 0 && (s.upto == s.used - 1 <==> s.used < |rest| || !IsRun(rest))
  {
  }

  /** A token with the text it stands for; taking a substring never goes past the end. */
  datatype Token = Token(tag: Tag, text: string)

  function TextOf(rest: string, s: Scanned): string
    requires s.used <= |rest|
  {
    var stop := if s.upto + 1 <= |rest| then s.upto + 1 else |rest|;
    if s.from <= stop then rest[s.from..stop] else []
  }

  /** All tokens of a source. */
  function LexAll(table: set<string>, rest: string): seq<Token>
    decreases |rest|
  {
    if rest == [] then []
    else
      FirstAdvances(table, rest);
      var s := First(table, rest);
      [Token(s.tag, TextOf(rest, s))] + LexAll(table, rest[s.used..])
  }

  /** Without comments and strings, the texts of all tokens make up the source. */
  lemma {:induction false} TokensPartition(table: set<string>, rest: string)
    requires '#' !in rest && '\"' !in rest
    ensures Joined(LexAll(table, rest)) == rest
    decreases |rest|
  {
    if rest != [] {
      FirstAdvances(table, rest);
      var s := First(table, rest);
      BoundsExactly(table, rest);
      assert TextOf(rest, s) == rest[..s.used] by {
        WholeText(table, rest);
      }
      TokensPartition(table, rest[s.used..]);
      hide First, TextOf, Joined;
      JoinedOne(Token(s.tag, TextOf(rest, s)), LexAll(table, rest[s.used..]));
      assert rest == rest[..s.used] + rest[s.used..];
    }
  }

  lemma WholeText(table: set<string>, rest: string)
    requires rest != [] && rest[0] != '#' && rest[0] != '\"'
    ensures First(table, rest).used <= |rest| && TextOf(rest, First(table, rest)) == rest[..First(table, rest).used]
  {
    FirstAdvances(table, rest);
  }

  function Joined(ts: seq<Token>): string {
    if ts == [] then [] else ts[0].text + Joined(ts[1..])
  }

  lemma JoinedOne(t: Token, ts: seq<Token>)
    ensures Joined([t] + ts) == t.text + Joined(ts)
  {
    assert ([t] + ts)[1..] == ts;
  }

  // ---------------------------------------------------------------- lexing undoes joining

  predicate All(s: string, p: char -> bool) {
    forall i | 0 <= i < |s| :: p(s[i])
  }

  predicate IsWord(s: string) {
    s != [] && IsAlpha(s[0]) && All(s, IsAlnum)
  }

  predicate IsNumeral(s: string) {
    StartsNumeral(s) && All(s, IsNumeralChar)
  }

  /** A leading colon would be read as punctuation. */
  predicate IsOperator(s: string) {
    s != [] && s[0] != ':' && All(s, IsOperatorChar)
  }

  predicate IsMark(s: string) {
    |s| == 1 && IsPunctuation(s[0])
  }

  /** A lexeme and the blanks after it. */
  datatype Piece = Piece(text: string, gap: string)

  predicate ValidPiece(p: Piece) {
    (IsWord(p.text) || IsNumeral(p.text) || IsOperator(p.text) || IsMark(p.text)) && p.gap != [] && All(p.gap, IsSpace)
  }

  function TagOf(table: set<string>, text: string): Tag {
    if IsWord(text) then WordTag(table, text)
    else if IsNumeral(text) then NumeralTag(text)
    else if IsMark(text) then Punctuation(text[0])
    else OperatorTag(table, text)
  }

  function Render(ps: seq<Piece>): string {
    if ps == [] then [] else ps[0].text + ps[0].gap + Render(ps[1..])
  }

  function Expected(table: set<string>, ps: seq<Piece>): seq<Token> {
    if ps == [] then [] else [Token(TagOf(table, ps[0].text), ps[0].text), Token(Spaces, ps[0].gap)] + Expected(table, ps[1..])
  }

  /** A run ends where the characters it accepts end. */
  lemma {:induction false} RunStops(s: string, more: string, p: char -> bool)
    requires All(s, p) && (more == [] || !p(more[0]))
    ensures Run(s + more, p) == |s|
  {
    if s == [] {
      assert s + more == more;
    } else {
      assert (s + more)[1..] == s[1..] + more && (s + more)[0] == s[0];
      RunStops(s[1..], more, p);
    }
  }

  lemma ReadsText(table: set<string>, text: string, more: string)
    requires IsWord(text) || IsNumeral(text) || IsOperator(text) || IsMark(text)
    requires more != [] && IsSpace(more[0])
    ensures var s := First(table, text + more);
            s.tag == TagOf(table, text) && s.used == |text| && TextOf(text + more, s) == text
  {
    hide Run, NumeralTag, WordTag, OperatorTag;
    var rest := text + more;
    assert rest[0] == text[0] && rest[..|text|] == text && rest[|text|] == more[0];
    if IsWord(text) {
      RunStops(text, more, IsAlnum);
    } else if IsNumeral(text) {
      RunStops(text, more, IsNumeralChar);
    } else if !IsMark(text) {
      RunStops(text, more, IsOperatorChar);
      assert !StartsNumeral(rest) by {
        assert |text| > 1 ==> rest[1] == text[1];
      }
    }
  }

  lemma ReadsGap(table: set<string>, gap: string, more: string)
    requires gap != [] && All(gap, IsSpace) && (more == [] || !IsSpace(more[0]))
    ensures var s := First(table, gap + more);
            s.tag == Spaces && s.used == |gap| && TextOf(gap + more, s) == gap
  {
    RunStops(gap, more, IsSpace);
    assert (gap + more)[0] == gap[0];
  }

  lemma LexAllStep(table: set<string>, text: string, more: string, tag: Tag)
    requires text != [] && var s := First(table, text + more); s.tag == tag && s.used == |text| && TextOf(text + more, s) == text
    ensures LexAll(table, text + more) == [Token(tag, text)] + LexAll(table, more)
  {
    hide First, TextOf;
    assert (text + more)[|text|..] == more;
  }

  lemma StartsVisible(ps: seq<Piece>)
    requires forall i | 0 <= i < |ps| :: ValidPiece(ps[i])
    ensures Render(ps) == [] || !IsSpace(Render(ps)[0])
  {
    if ps != [] {
      assert ValidPiece(ps[0]);
      Visible(ps[0].text);
      hide Render, ValidPiece;
      RenderFirst(ps);
    }
  }

  lemma Visible(text: string)
    requires IsWord(text) || IsNumeral(text) || IsOperator(text) || IsMark(text)
    ensures text != [] && !IsSpace(text[0])
  {
  }

  lemma RenderFirst(ps: seq<Piece>)
    requires ps != [] && ps[0].text != []
    ensures Render(ps) != [] && Render(ps)[0] == ps[0].text[0]
  {
  }

  /** Lexing undoes joining with blanks: the kinds and texts of the lexemes come back in
      order, with the blanks between them. */
  lemma {:induction false} LexingUndoesJoining(table: set<string>, ps: seq<Piece>)
    requires forall i | 0 <= i < |ps| :: ValidPiece(ps[i])
    ensures LexAll(table, Render(ps)) == Expected(table, ps)
    decreases |ps|
  {
    hide First, TextOf, TagOf, LexAll, IsWord, IsNumeral, IsOperator, IsMark;
    if ps == [] {
      LexNothing(table);
    } else {
      assert ValidPiece(ps[0]);
      var text, gap, more := ps[0].text, ps[0].gap, Render(ps[1..]);
      TextNotEmpty(ps[0]);
      StartsVisible(ps[1..]);
      assert text + gap + more == text + (gap + more);
      assert (gap + more)[0] == gap[0];
      ReadsText(table, text, gap + more);
      LexAllStep(table, text, gap + more, TagOf(table, text));
      ReadsGap(table, gap, more);
      LexAllStep(table, gap, more, Spaces);
      LexingUndoesJoining(table, ps[1..]);
      var first, second := Token(TagOf(table, text), text), Token(Spaces, gap);
      assert [first] + ([second] + Expected(table, ps[1..])) == [first, second] + Expected(table, ps[1..]);
    }
  }

  lemma TextNotEmpty(p: Piece)
    requires ValidPiece(p)
    ensures p.text != []
  {
  }

  lemma LexNothing(table: set<string>)
    ensures LexAll(table, []) == []
  {
  }

  lemma CountThree(a: char, b: char, c: char, x: char)
    ensures Count([a, b, c], x) == (if a == x then 1 else 0) + (if b == x then 1 else 0) + (if c == x then 1 else 0)
  {
    assert [a, b, c][1..] == [b, c] && [b, c][1..] == [c] && [c][1..] == [];
    assert Count([c], x) == if c == x then 1 else 0;
    assert Count([b, c], x) == (if b == x then 1 else 0) + Count([c], x);
  }

  lemma ValueOfDifference(a: char, b: char)
    requires IsDigit(a)
    ensures LiteralValue(TkInt, [a, '-', b]) == Int(a as int - '0' as int)
  {
    var s := [a, '-', b];
    assert s[1..] == ['-', b] && UpToMinus(['-', b]) == [];
    assert UpToMinus(s) == [a] + [] == [a];
    assert [a][..0] == [] && DigitsValue([]) == 0;
    assert DigitsValue([a]) == 10 * DigitsValue([a][..0]) + (a as int - '0' as int);
  }

  /** Without blanks a difference of digits is a single numeral, with the value of the first:
      `1-2` means 1. */
  lemma DifferenceIsNumeral(table: set<string>, a: char, b: char, more: string)
    requires IsDigit(a) && IsDigit(b) && (more == [] || !IsNumeralChar(more[0]))
    ensures var s := First(table, [a, '-', b] + more); s.tag == LiteralInt && s.used == 3
    ensures LiteralValue(TkInt, [a, '-', b]) == Int(a as int - '0' as int)
  {
    hide Count, Run, DigitsValue, UpToMinus, LiteralValue;
    var text := [a, '-', b];
    RunStops(text, more, IsNumeralChar);
    CountThree(a, '-', b, '-');
    CountThree(a, '-', b, '.');
    ValueOfDifference(a, b);
    assert (text + more)[..3] == text && (text + more)[0] == a;
  }

  /** The parser's token kinds of words and numerals are those of `KindOf`. */
  lemma KindsAgree(text: string)
    requires IsWord(text) || IsNumeral(text)
    ensures match TagOf(TABLE, text)
            case Entry(t) => t == text && KindOf(text) == (if t == "true" then TkTrue else if t == "false" then TkFalse else TkOther)
            case Identifier => KindOf(text) == TkIdent
            case LiteralInt => KindOf(text) == TkInt
            case LiteralDouble => KindOf(text) == TkDouble
            case _ => KindOf(text) == TkOther
  {
    if IsWord(text) && text in TABLE {
      assert text in KEYWORDS || text in {"true", "false"};
    }
  }

  // ---------------------------------------------------------------- the object

  class Lexer {
    var items: set<string>
    var pos: nat
    var end: nat

    constructor ()
      ensures items == {} && pos == 0 && end == 0
    {
      items, pos, end := {}, 0, 0;
    }

    method AddLexicalItem(text: string)
      modifies this
      ensures items == old(items) + {text} && pos == old(pos) && end == old(end)
    {
      items := items + {text};
    }

    method ResetWithSource(src: string)
      modifies this
      ensures pos == 0 && end == |src| && items == old(items)
    {
      pos, end := 0, |src|;
    }

    /** The token `s` read from `start`. */
    ghost predicate Read(src: string, start: nat, s: Scanned, tag: Tag, from: nat, upto: int)
      reads this
    {
      tag == s.tag && from == start + s.from && upto == start + s.upto && pos == start + s.used
    }

    /** Go on while `p` holds; the last position read, or one more at the end of the source. */
    method Munch(src: string, p: char -> bool) returns (last: int)
      requires pos <= end == |src|
      modifies this`pos
      ensures pos == old(pos) + Run(src[old(pos)..], p)
      ensures last == if pos < end then pos - 1 else pos
    {
      last := pos;
      while pos < end && p(src[pos])
        invariant old(pos) <= pos <= end && last == pos
        invariant Run(src[old(pos)..], p) == pos - old(pos) + Run(src[pos..], p)
        decreases end - pos
      {
        assert src[pos..][0] == src[pos] && src[pos..][1..] == src[pos + 1..];
        pos := pos + 1;
        last := last + 1;
      }
      if pos < end {
        assert src[pos..][0] == src[pos];
        last := last - 1;
      }
    }

    method LexSingle(src: string, single: Tag) returns (tag: Tag, from: nat, upto: int)
      requires pos < end == |src|
      modifies this`pos
      ensures Read(src, old(pos), Single(single), tag, from, upto)
    {
      tag, from, upto := single, pos, pos;
      pos := pos + 1;
    }

    method LexBetween(src: string, inside: Tag) returns (tag: Tag, from: nat, upto: int)
      requires pos < end == |src|
      modifies this`pos
      ensures Read(src, old(pos), Between(src[old(pos)..], inside), tag, from, upto)
    {
      var delim := src[pos];
      ghost var rest := src[pos..];
      ghost var other := c => c != rest[0];
      pos := pos + 1;
      from, upto := pos, pos;
      tag := Unknown;
      assert rest[1..] == src[pos..];
      while pos < end
        invariant from == old(pos) + 1 <= pos <= end && upto == pos && tag == Unknown
        invariant Run(rest[1..], other) == pos - from + Run(src[pos..], other)
        decreases end - pos
      {
        assert src[pos..][0] == src[pos] && src[pos..][1..] == src[pos + 1..];
        if src[pos] == delim {
          upto := upto - 1;
          pos := pos + 1;
          tag := inside;
          BetweenClosed(rest, inside, pos - 1 - from);
          return;
        }
        pos := pos + 1;
        upto := upto + 1;
      }
      BetweenOpen(rest, inside);
    }

    method LexSpaces(src: string) returns (tag: Tag, from: nat, upto: int)
      requires pos < end == |src|
      modifies this`pos
      ensures var rest := src[old(pos)..]; Read(src, old(pos), RunToken(rest, Run(rest, IsSpace), Spaces), tag, from, upto)
    {
      from := pos;
      upto := Munch(src, IsSpace);
      tag := Spaces;
    }

    method LexNumeric(src: string) returns (tag: Tag, from: nat, upto: int)
      requires pos < end == |src|
      modifies this`pos
      ensures var rest := src[old(pos)..];
              var n := Run(rest, IsNumeralChar);
              Read(src, old(pos), RunToken(rest, n, NumeralTag(rest[..n])), tag, from, upto)
    {
      hide Run, Count;
      from := pos;
      upto := pos;
      ghost var rest := src[pos..];
      ghost var n := Run(rest, IsNumeralChar);
      ghost var text := rest[..n];
      assert forall i | from <= i < from + n :: IsNumeralChar(src[i]) by {
        assert forall i | from <= i < from + n :: src[i] == rest[i - from];
      }
      var dots, minuses := 0, 0;
      while pos < end && IsNumeralChar(src[pos])
        invariant from <= pos <= from + n && upto == pos
        invariant dots + Count(text[pos - from..], '.') == Count(text, '.')
        invariant minuses + Count(text[pos - from..], '-') == Count(text, '-')
        decreases end - pos
      {
        assert rest[pos - from] == src[pos];
        CountFirst(text[pos - from..], '.');
        CountFirst(text[pos - from..], '-');
        assert text[pos - from..][1..] == text[pos + 1 - from..];
        if src[pos] == '.' {
          dots := dots + 1;
        } else if src[pos] == '-' {
          minuses := minuses + 1;
        }
        pos := pos + 1;
        upto := upto + 1;
      }
      assert pos == from + n;
      assert text[pos - from..] == [];
      CountFirst([], '.');
      CountFirst([], '-');
      if pos < end {
        upto := upto - 1;
      }
      if minuses > 1 {
        tag := Unknown;
      } else if dots == 0 {
        tag := LiteralInt;
      } else if dots == 1 {
        tag := LiteralDouble;
      } else {
        tag := Unknown;
      }
    }

    method LexOperator(src: string) returns (tag: Tag, from: nat, upto: int)
      requires pos < end == |src|
      modifies this`pos
      ensures var rest := src[old(pos)..];
              var n := Run(rest, IsOperatorChar);
              Read(src, old(pos), RunToken(rest, n, OperatorTag(items, rest[..n])), tag, from, upto)
    {
      from := pos;
      upto := Munch(src, IsOperatorChar);
      assert src[from..pos] == src[from..][..pos - from];
      tag := if src[from..pos] in items then Entry(src[from..pos]) else Unknown;
    }

    method LexWord(src: string) returns (tag: Tag, from: nat, upto: int)
      requires pos < end == |src|
      modifies this`pos
      ensures var rest := src[old(pos)..];
              var n := Run(rest, IsAlnum);
              Read(src, old(pos), RunToken(rest, n, WordTag(items, rest[..n])), tag, from, upto)
    {
      from := pos;
      upto := Munch(src, IsAlnum);
      assert src[from..pos] == src[from..][..pos - from];
      tag := if src[from..pos] in items then Entry(src[from..pos]) else Identifier;
    }

    /** The next token; at the end of the source always the end-of-file token. */
    method Next(src: string) returns (tag: Tag, from: nat, upto: int)
      requires pos <= end == |src|
      modifies this`pos
      ensures old(pos) == end ==> tag == EndOfFile && from == upto == end && pos == end
      ensures old(pos) < end ==> Read(src, old(pos), First(items, src[old(pos)..]), tag, from, upto) && old(pos) < pos <= end
    {
      if pos >= end {
        return EndOfFile, end, end;
      }
      ghost var rest := src[pos..];
      FirstAdvances(items, rest);
      var c := src[pos];
      var d := if pos + 1 < end then src[pos + 1] else '\0';
      if IsSpace(c) {
        tag, from, upto := LexSpaces(src);
      } else if c == '\0' {
        tag, from, upto := LexSingle(src, EndOfFile);
      } else if c == '#' {
        tag, from, upto := LexBetween(src, Comment);
      } else if c == '\"' {
        tag, from, upto := LexBetween(src, LiteralString);
      } else if IsPunctuation(c) {
        tag, from, upto := LexSingle(src, Punctuation(c));
      } else if IsAlpha(c) {
        tag, from, upto := LexWord(src);
      } else if IsDigit(c) || (c == '-' && IsDigit(d)) {
        tag, from, upto := LexNumeric(src);
      } else if IsOperatorChar(c) {
        tag, from, upto := LexOperator(src);
      } else {
        tag, from, upto := LexSingle(src, Unknown);
      }
    }
  }

  lemma CountFirst(s: string, x: char)
    ensures Count(s, x) == if s == [] then 0 else (if s[0] == x then 1 else 0) + Count(s[1..], x)
  {
  }

  lemma BetweenClosed(rest: string, tag: Tag, n: nat)
    requires rest != [] && n < |rest| - 1 && Run(rest[1..], c => c != rest[0]) == n
    ensures Between(rest, tag) == Scanned(tag, 1, n, n + 2)
  {
  }

  lemma BetweenOpen(rest: string, tag: Tag)
    requires rest != [] && Run(rest[1..], c => c != rest[0]) == |rest| - 1
    ensures Between(rest, tag) == Scanned(Unknown, 1, |rest|, |rest|)
  {
  }
}
