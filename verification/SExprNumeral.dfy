/** The names that JavaScript takes for numbers, as a grammar of numerals. */
module SExprNumeral {
  import opened Common
  import opened SExpr

  /** An exponent: its letter, its sign and its figures. */
  datatype Exponent = Power(letter: char, sign: string, figures: string)

  datatype Numeral =
    | Endless(sign: string)
    | Decimals(sign: string, whole: string, fraction: Option<string>, exponent: Option<Exponent>)
    | Based(letter: char, figures: string)

  predicate Sign(s: string) {
    s == "" || s == "+" || s == "-"
  }

  predicate Figures(s: string) {
    forall k :: 0 <= k < |s| ==> s[k] in "0123456789"
  }

  /** The figures of the three bases that have a letter. */
  function BaseFigures(letter: char): string {
    if letter == 'x' || letter == 'X' then "0123456789abcdefABCDEF"
    else if letter == 'o' || letter == 'O' then "01234567"
    else if letter == 'b' || letter == 'B' then "01"
    else ""
  }

  predicate Written(n: Numeral) {
    match n
    case Endless(sign) => Sign(sign)
    case Decimals(sign, whole, fraction, exponent) =>
      Sign(sign) && Figures(whole) && (fraction.Some? ==> Figures(fraction.value)) &&
      (whole != "" || (fraction.Some? && fraction.value != "")) &&
      (exponent.Some? ==> exponent.value.letter in "eE" && Sign(exponent.value.sign) &&
                          exponent.value.figures != "" && Figures(exponent.value.figures))
    case Based(letter, figures) =>
      letter in "xXoObB" && figures != "" && forall k :: 0 <= k < |figures| ==> figures[k] in BaseFigures(letter)
  }

  function Mantissas(whole: string, fraction: Option<string>): string {
    match fraction case None => whole case Some(f) => whole + (['.'] + f)
  }

  function Exponents(e: Option<Exponent>): string {
    match e case None => "" case Some(p) => [p.letter] + (p.sign + p.figures)
  }

  function NumeralText(n: Numeral): string {
    match n
    case Endless(sign) => sign + "Infinity"
    case Decimals(sign, whole, fraction, exponent) => sign + (Mantissas(whole, fraction) + Exponents(exponent))
    case Based(letter, figures) => ['0', letter] + figures
  }

  lemma FiguresAre(s: string)
    ensures Figures(s) <==> AllDigits(s)
  {
    if AllDigits(s) {
      forall k | 0 <= k < |s| ensures s[k] in "0123456789" {
        assert IsDigit(s[k]) && "0123456789"[(s[k] - '0') as int] == s[k];
      }
    }
  }

  lemma {:induction false} FindIs(pre: string, post: string, cs: string)
    requires (forall k :: 0 <= k < |pre| ==> pre[k] !in cs) && (post != "" ==> post[0] in cs)
    ensures Find(pre + post, cs) == |pre|
  {
    if pre == "" {
      assert pre + post == post;
    } else {
      assert (pre + post)[0] == pre[0] && (pre + post)[1..] == pre[1..] + post;
      FindIs(pre[1..], post, cs);
    }
  }

  lemma {:induction false} FindSplits(s: string, cs: string)
    ensures var n := Find(s, cs); (forall k :: 0 <= k < n ==> s[k] !in cs) && (n < |s| ==> s[n] in cs)
  {
    if s != "" && s[0] !in cs { FindSplits(s[1..], cs); }
  }

  lemma SignDropped(sign: string, body: string)
    requires Sign(sign) && body != "" && body[0] != '+' && body[0] != '-'
    ensures Unsigned(sign + body) == body
  {
    assert sign == "" ==> sign + body == body;
    assert sign != "" ==> (sign + body)[1..] == body;
  }

  /** Neither a sign nor the letter of an exponent. */
  predicate NoLetter(c: char) {
    c != '+' && c != '-' && c !in "eE"
  }

  lemma MantissaText(whole: string, fraction: Option<string>)
    requires Figures(whole) && (fraction.Some? ==> Figures(fraction.value))
    ensures Mantissa(Mantissas(whole, fraction)) <==> whole != "" || (fraction.Some? && fraction.value != "")
    ensures forall k :: 0 <= k < |Mantissas(whole, fraction)| ==> NoLetter(Mantissas(whole, fraction)[k])
  {
    var s := Mantissas(whole, fraction);
    FiguresAre(whole);
    match fraction
    case None =>
      FindIs(whole, "", ".");
      assert whole + "" == whole;
    case Some(f) =>
      FiguresAre(f);
      FindIs(whole, ['.'] + f, ".");
      assert s[..|whole|] == whole && s[|whole| + 1..] == f;
  }

  lemma ExponentText(p: Exponent)
    requires Sign(p.sign) && p.figures != "" && Figures(p.figures)
    ensures Exponents(Some(p))[1..] == p.sign + p.figures && Digits(Unsigned(p.sign + p.figures))
  {
    FiguresAre(p.figures);
    SignDropped(p.sign, p.figures);
  }

  lemma IsDecimal(m: string, e: string)
    requires Mantissa(m) && (forall k :: 0 <= k < |m| ==> NoLetter(m[k])) && (e != "" ==> e[0] in "eE" && Digits(Unsigned(e[1..])))
    ensures Decimal(m + e)
  {
    FindIs(m, e, "eE");
    hide Mantissa, Unsigned, Digits, Find, NoLetter;
    assert (m + e)[..|m|] == m;
    if e != "" { assert (m + e)[|m| + 1..] == e[1..]; }
  }

  lemma DecimalText(whole: string, fraction: Option<string>, exponent: Option<Exponent>)
    requires Written(Decimals("", whole, fraction, exponent))
    ensures Decimal(Mantissas(whole, fraction) + Exponents(exponent))
  {
    var m, e := Mantissas(whole, fraction), Exponents(exponent);
    MantissaText(whole, fraction);
    hide Mantissa, Mantissas, Sign, Unsigned, Figures, Digits, NoLetter, Decimal;
    if exponent.Some? { ExponentText(exponent.value); }
    IsDecimal(m, e);
  }

  lemma DecimalWritten(sign: string, whole: string, fraction: Option<string>, exponent: Option<Exponent>)
    requires Written(Decimals(sign, whole, fraction, exponent))
    ensures Decimal(Unsigned(sign + (Mantissas(whole, fraction) + Exponents(exponent))))
  {
    var body := Mantissas(whole, fraction) + Exponents(exponent);
    assert Sign("") by { NoSign(); }
    DecimalText(whole, fraction, exponent);
    MantissaText(whole, fraction);
    hide Decimal, Exponents, Figures, Unsigned, Mantissa;
    assert body != "" && NoLetter(body[0]);
    hide Mantissas;
    SignDropped(sign, body);
  }

  lemma BasedWritten(letter: char, figures: string)
    requires Written(Based(letter, figures))
    ensures IsNumeric(['0', letter] + figures)
  {
    hide Decimal, Unsigned;
    var s := ['0', letter] + figures;
    assert forall k :: 2 <= k < |s| ==> s[k] == figures[k - 2];
  }

  lemma WrittenNumeric(n: Numeral)
    requires Written(n)
    ensures IsNumeric(NumeralText(n))
  {
    hide Decimal, Unsigned, Mantissas, Exponents, Figures, Radix;
    match n
    case Endless(sign) => SignDropped(sign, "Infinity");
    case Decimals(sign, whole, fraction, exponent) => DecimalWritten(sign, whole, fraction, exponent);
    case Based(letter, figures) => BasedWritten(letter, figures);
  }

  lemma NoSign()
    ensures Sign("")
  {
  }

  /** Every text has a sign, perhaps empty, before what is unsigned. */
  lemma SignOf(s: string) returns (sign: string)
    ensures Sign(sign) && s == sign + Unsigned(s)
  {
    sign := if s != "" && (s[0] == '+' || s[0] == '-') then [s[0]] else "";
  }

  lemma MantissaParts(s: string) returns (whole: string, fraction: Option<string>)
    requires Mantissa(s)
    ensures Figures(whole) && (fraction.Some? ==> Figures(fraction.value)) && s == Mantissas(whole, fraction)
    ensures whole != "" || (fraction.Some? && fraction.value != "")
  {
    var n := Find(s, ".");
    FindSplits(s, ".");
    if n == |s| {
      FiguresAre(s);
      return s, None;
    }
    whole, fraction := s[..n], Some(s[n + 1..]);
    FiguresAre(whole);
    FiguresAre(fraction.value);
    assert s[n] == '.';
    assert s == whole + (['.'] + fraction.value);
  }

  lemma DecimalParts(s: string) returns (whole: string, fraction: Option<string>, exponent: Option<Exponent>)
    requires Decimal(s)
    ensures Written(Decimals("", whole, fraction, exponent)) && s == Mantissas(whole, fraction) + Exponents(exponent)
  {
    hide Mantissa, Find, Figures, Sign, Unsigned, AllDigits, Mantissas;
    var n := Find(s, "eE");
    FindSplits(s, "eE");
    whole, fraction := MantissaParts(s[..n]);
    assert Sign("") by { NoSign(); }
    if n == |s| {
      exponent := None;
      assert s[..n] + "" == s;
    } else {
      var sign := SignOf(s[n + 1..]);
      exponent := Some(Power(s[n], sign, Unsigned(s[n + 1..])));
      FiguresAre(Unsigned(s[n + 1..]));
      assert s == s[..n] + ([s[n]] + s[n + 1..]);
    }
  }

  lemma RadixParts(s: string) returns (n: Numeral)
    requires Radix(s, "xX", "0123456789abcdefABCDEF") || Radix(s, "oO", "01234567") || Radix(s, "bB", "01")
    ensures n.Based? && Written(n) && NumeralText(n) == s
  {
    n := Based(s[1], s[2..]);
    assert s == ['0', s[1]] + s[2..];
  }

  lemma NumericWritten(s: string) returns (n: Numeral)
    requires IsNumeric(s)
    ensures Written(n) && NumeralText(n) == s
  {
    hide Decimal, Unsigned, Figures, Sign, BaseFigures, Radix, Mantissas, Exponents;
    var sign := SignOf(s);
    if Unsigned(s) == "Infinity" {
      n := Endless(sign);
    } else if Decimal(Unsigned(s)) {
      var whole, fraction, exponent := DecimalParts(Unsigned(s));
      n := Decimals(sign, whole, fraction, exponent);
    } else {
      n := RadixParts(s);
    }
  }

  /** A name is a number just if it is the text of a numeral. */
  lemma NumericIff(s: string)
    ensures IsNumeric(s) <==> exists n :: Written(n) && NumeralText(n) == s
  {
    hide IsNumeric, Written, NumeralText;
    if IsNumeric(s) {
      var n := NumericWritten(s);
    }
    forall n | Written(n) && NumeralText(n) == s ensures IsNumeric(s) {
      WrittenNumeric(n);
    }
  }
}
