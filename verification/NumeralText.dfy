/** What numerals mean: decimal texts, read back as the numbers they were written for
    (src/ir/convert_ast.cpp:181-200). */
module NumeralText {
  import opened Values
  import opened Syntax

  function Digit(d: nat): (c: char)
    requires d < 10
    ensures IsDigit(c)
  {
    '0' + d as char
  }

  /** The decimal text of a number. */
  function Decimal(n: nat): (s: string)
    ensures s != [] && AllDigits(s)
  {
    if n < 10 then [Digit(n)] else Decimal(n / 10) + [Digit(n % 10)]
  }

  predicate AllDigits(s: string) {
    forall i | 0 <= i < |s| :: IsDigit(s[i])
  }

  function Ten(k: nat): (r: nat)
    ensures r > 0
  {
    if k == 0 then 1 else 10 * Ten(k - 1)
  }

  // ---------------------------------------------------------------- digits

  lemma {:induction false} DigitsOfDecimal(n: nat)
    ensures DigitsValue(Decimal(n)) == n
  {
    if n < 10 {
      assert [Digit(n)][..0] == [] && DigitsValue([]) == 0;
      DigitsStep([], Digit(n));
      assert [] + [Digit(n)] == [Digit(n)];
    } else {
      DigitsOfDecimal(n / 10);
      DigitsStep(Decimal(n / 10), Digit(n % 10));
    }
  }

  lemma DigitsStep(s: string, c: char)
    requires IsDigit(c)
    ensures DigitsValue(s + [c]) == 10 * DigitsValue(s) + (c as int - '0' as int)
  {
    assert (s + [c])[..|s|] == s;
  }

  /** Further digits push the ones before them to the left. */
  lemma {:induction false} DigitsConcat(a: string, b: string)
    requires AllDigits(b)
    ensures DigitsValue(a + b) == DigitsValue(a) * Ten(|b|) + DigitsValue(b)
    decreases |b|
  {
    if b == [] {
      assert a + b == a;
    } else {
      var front, c := b[..|b| - 1], b[|b| - 1];
      DigitsConcat(a, front);
      assert a + b == (a + front) + [c] && b == front + [c];
      DigitsStep(a + front, c);
      DigitsStep(front, c);
      TenStep(DigitsValue(a), |front|);
    }
  }

  lemma TenStep(v: nat, k: nat)
    ensures v * Ten(k + 1) == 10 * (v * Ten(k))
  {
    var t := Ten(k);
    assert v * (10 * t) == 10 * (v * t);
  }

  /** Digits after the point, scaled to an integer. */
  lemma {:induction false} FractionDigits(s: string)
    requires AllDigits(s)
    ensures FractionValue(s) * Ten(|s|) as real == DigitsValue(s) as real
  {
    hide FractionValue, DigitsValue, Ten;
    if s == [] {
      NoFraction();
    } else {
      var c, rest := s[0], s[1..];
      FractionDigits(rest);
      FirstDigit(c, rest);
      FractionStep(s);
      ScaleFraction(c as int - '0' as int, FractionValue(rest), Ten(|rest|));
    }
  }

  lemma NoFraction()
    ensures FractionValue([]) == 0.0 && DigitsValue([]) == 0
  {
  }

  lemma FirstDigit(c: char, rest: string)
    requires IsDigit(c) && AllDigits(rest)
    ensures DigitsValue([c] + rest) == (c as int - '0' as int) * Ten(|rest|) + DigitsValue(rest)
  {
    hide DigitsValue, Ten, FractionValue;
    NoFraction();
    DigitsConcat([c], rest);
    assert [c] == [] + [c];
    DigitsStep([], c);
  }

  lemma FractionStep(s: string)
    requires s != [] && IsDigit(s[0])
    ensures FractionValue(s) == ((s[0] as int - '0' as int) as real + FractionValue(s[1..])) / 10.0
    ensures Ten(|s|) == 10 * Ten(|s[1..]|) && s == [s[0]] + s[1..]
  {
  }

  lemma ScaleFraction(d: int, f: real, t: int)
    ensures (d as real + f) / 10.0 * (10 * t) as real == (d * t) as real + f * t as real
  {
    var x, u := d as real + f, t as real;
    ProductReal(10, t);
    ProductReal(d, t);
    Cancel(x, u);
    Distribute(d as real, f, u);
  }

  lemma ProductReal(a: int, b: int)
    ensures (a * b) as real == a as real * b as real
  {
  }

  lemma Cancel(x: real, u: real)
    ensures x / 10.0 * (10.0 * u) == x * u
  {
    var y := x / 10.0;
    assert y * 10.0 == x;
    assert y * (10.0 * u) == (y * 10.0) * u;
  }

  lemma Distribute(a: real, b: real, u: real)
    ensures (a + b) * u == a * u + b * u && (-(a + b)) * u == -((a + b) * u)
  {
  }

  // ---------------------------------------------------------------- integers

  lemma {:induction false} NoMinus(s: string)
    requires forall i | 0 <= i < |s| :: s[i] != '-'
    ensures UpToMinus(s) == s
  {
    if s != [] {
      NoMinus(s[1..]);
      assert s == [s[0]] + s[1..];
    }
  }

  /** A decimal text is read as its number, with either sign. */
  lemma IntegerText(n: nat)
    ensures LiteralValue(TkInt, Decimal(n)) == Int(n) && LiteralValue(TkInt, "-" + Decimal(n)) == Int(-(n as int))
  {
    hide Decimal, DigitsValue, UpToMinus;
    DigitsOfDecimal(n);
    DigitsText(Decimal(n));
  }

  /** The same for digits with leading zeros. */
  lemma DigitsText(s: string)
    requires AllDigits(s)
    ensures LiteralValue(TkInt, s) == Int(DigitsValue(s)) && LiteralValue(TkInt, "-" + s) == Int(-(DigitsValue(s) as int))
  {
    hide DigitsValue, UpToMinus;
    NoMinus(s);
    assert ("-" + s)[0] == '-' && ("-" + s)[1..] == s;
  }

  // ---------------------------------------------------------------- with a point

  lemma {:induction false} PointAt(a: string, b: string)
    requires AllDigits(a)
    ensures PointIndex(a + "." + b) == |a|
  {
    if a != [] {
      PointAt(a[1..], b);
      assert (a + "." + b)[1..] == a[1..] + "." + b;
    }
  }

  /** A point before the last `k` digits divides the number by 10^k, with either sign. */
  lemma PointText(whole: string, part: string)
    requires AllDigits(whole) && AllDigits(part)
    ensures var s := whole + "." + part;
            var v, w := LiteralValue(TkDouble, s), LiteralValue(TkDouble, "-" + s);
            var i, j := LiteralValue(TkInt, whole + part), LiteralValue(TkInt, "-" + (whole + part));
            && v.Flt? && w.Flt? && i.Int? && j.Int?
            && v.r * Ten(|part|) as real == i.i as real && w.r * Ten(|part|) as real == j.i as real
  {
    hide DigitsValue, UpToMinus, FractionValue, PointIndex, Ten, LiteralValue;
    var s := whole + "." + part;
    NoMinus(s);
    assert ("-" + s)[0] == '-' && ("-" + s)[1..] == s;
    PointAt(whole, part);
    assert s[..|whole|] == whole && s[|whole| + 1..] == part;
    PointValues(s, whole, part);
    DigitsText(whole + part);
    DigitsConcat(whole, part);
    FractionDigits(part);
    ProductReal(DigitsValue(whole), Ten(|part|));
    Distribute(DigitsValue(whole) as real, FractionValue(part), Ten(|part|) as real);
  }

  lemma PointValues(s: string, whole: string, part: string)
    requires UpToMinus(s) == s && PointIndex(s) == |whole| < |s| && s[..|whole|] == whole && s[|whole| + 1..] == part && s[0] != '-'
    requires ("-" + s)[0] == '-' && ("-" + s)[1..] == s
    ensures LiteralValue(TkDouble, s) == Flt(DigitsValue(whole) as real + FractionValue(part))
    ensures LiteralValue(TkDouble, "-" + s) == Flt(-(DigitsValue(whole) as real + FractionValue(part)))
  {
    hide DigitsValue, UpToMinus, FractionValue, PointIndex;
  }

  /** The number with its last `k` digits after a point. */
  lemma DecimalPoint(n: nat, k: nat)
    requires k <= |Decimal(n)|
    ensures var m := |Decimal(n)| - k;
            var s := Decimal(n)[..m] + "." + Decimal(n)[m..];
            LiteralValue(TkDouble, s).Flt? && LiteralValue(TkDouble, "-" + s).Flt?
            && LiteralValue(TkDouble, s).r * Ten(k) as real == n as real && LiteralValue(TkDouble, "-" + s).r * Ten(k) as real == -(n as real)
  {
    hide LiteralValue, Decimal, Ten;
    var m := |Decimal(n)| - k;
    PointText(Decimal(n)[..m], Decimal(n)[m..]);
    assert Decimal(n)[..m] + Decimal(n)[m..] == Decimal(n);
    IntegerText(n);
  }

  // ---------------------------------------------------------------- kinds

  lemma {:induction false} CountNone(s: string, c: char)
    requires forall i | 0 <= i < |s| :: s[i] != c
    ensures Count(s, c) == 0
  {
    if s != [] {
      CountNone(s[1..], c);
    }
  }

  lemma {:induction false} CountConcat(a: string, b: string, c: char)
    ensures Count(a + b, c) == Count(a, c) + Count(b, c)
  {
    if a == [] {
      assert a + b == b;
    } else {
      CountConcat(a[1..], b, c);
      assert (a + b)[1..] == a[1..] + b && (a + b)[0] == a[0];
    }
  }

  /** Digits are an integer numeral, digits with a point between a float numeral, with either
      sign. */
  lemma KindsOfNumerals(whole: string, part: string)
    requires whole != [] && AllDigits(whole) && AllDigits(part)
    ensures KindOf(whole) == KindOf("-" + whole) == TkInt
    ensures KindOf(whole + "." + part) == KindOf("-" + (whole + "." + part)) == TkDouble
  {
    hide Count;
    CountNone(whole, '-');
    CountNone(whole, '.');
    CountNone(part, '-');
    CountNone(part, '.');
    OneChar('-');
    OneChar('.');
    CountConcat("-", whole, '-');
    CountConcat("-", whole, '.');
    var s := whole + "." + part;
    CountConcat(whole + ".", part, '-');
    CountConcat(whole + ".", part, '.');
    CountConcat(whole, ".", '-');
    CountConcat(whole, ".", '.');
    CountConcat("-", s, '-');
    CountConcat("-", s, '.');
    NumeralStarts(whole);
    NumeralStarts(s);
    hide NumeralKind, StartsNumeral;
    NumeralKinds(whole);
    NumeralKinds("-" + whole);
    NumeralKinds(s);
    NumeralKinds("-" + s);
  }

  lemma OneChar(c: char)
    requires c == '-' || c == '.'
    ensures Count(".", c) == (if c == '.' then 1 else 0) && Count("-", c) == (if c == '-' then 1 else 0)
  {
    assert "."[1..] == [] && "-"[1..] == [] && "."[0] == '.' && "-"[0] == '-';
  }

  lemma NumeralStarts(s: string)
    requires s != [] && IsDigit(s[0])
    ensures StartsNumeral(s) && StartsNumeral("-" + s)
  {
    assert ("-" + s)[0] == '-' && ("-" + s)[1] == s[0];
  }

  lemma NumeralKinds(s: string)
    requires StartsNumeral(s)
    ensures KindOf(s) == if Count(s, '-') > 1 || Count(s, '.') > 1 then TkOther else if Count(s, '.') == 1 then TkDouble else TkInt
  {
    hide Count;
    assert s[0] == '-' || IsDigit(s[0]);
    assert "true"[0] == 't' && "false"[0] == 'f';
  }
}
