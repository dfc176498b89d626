/** Reading what was written. */
module SExprTrip {
  import opened SExpr

  // ----- string literals

  predicate IsHexChar(c: char) {
    HexValue(c) >= 0
  }

  /** The hexadecimal digits at the front. */
  function HexRun(s: string): (n: nat)
    ensures n <= |s| && (forall k :: 0 <= k < n ==> IsHexChar(s[k])) && (n < |s| ==> !IsHexChar(s[n]))
  {
    if s == "" || !IsHexChar(s[0]) then 0 else 1 + HexRun(s[1..])
  }

  function HexNumber(s: string, nb: nat): nat
    requires forall k :: 0 <= k < |s| ==> IsHexChar(s[k])
  {
    assert s != "" ==> IsHexChar(s[0]);
    if s == "" then nb else HexNumber(s[1..], nb * 16 + HexValue(s[0]))
  }

  /** What a string becomes: a control character without a name is written as a hexadecimal number
      without an end, and takes the digits that follow it. */
  function ImageText(s: string): string
    decreases |s|
  {
    if s == "" then ""
    else if Unnamed(s[0]) then
      var n := HexRun(s[1..]);
      [FromCharCode(HexNumber(HexCode(s[0] as nat) + s[1..1 + n], 0))] + ImageText(s[1 + n..])
    else [s[0]] + ImageText(s[1..])
  }

  lemma {:induction false} HexReadRun(t: string, post: string, nb: nat)
    requires (forall k :: 0 <= k < |t| ==> IsHexChar(t[k])) && (post != "" ==> !IsHexChar(post[0]))
    ensures HexRead(t + post, nb) == (HexNumber(t, nb), post)
    decreases |t|
  {
    if t == "" {
      assert t + post == post;
    } else {
      assert (t + post)[1..] == t[1..] + post;
      HexReadRun(t[1..], post, nb * 16 + HexValue(t[0]));
    }
  }

  lemma HexPlain(c: char)
    requires IsHexChar(c)
    ensures EscapeChar(c) == [c]
  {
  }

  /** Hexadecimal digits are written as they are. */
  lemma {:induction false} EscapeRun(s: string, n: nat)
    requires n <= |s| && forall k :: 0 <= k < n ==> IsHexChar(s[k])
    ensures EscapeText(s) == s[..n] + EscapeText(s[n..])
    decreases n
  {
    hide EscapeChar, IsHexChar;
    if n > 0 {
      HexPlain(s[0]);
      EscapeRun(s[1..], n - 1);
      RunSplit(s, n, EscapeText(s[n..]));
    } else {
      assert s[..0] + EscapeText(s[0..]) == EscapeText(s);
    }
  }

  lemma RunSplit(s: string, n: nat, e: string)
    requires 0 < n <= |s|
    ensures s[1..][n - 1..] == s[n..] && [s[0]] + (s[1..][..n - 1] + e) == s[..n] + e
  {
  }

  /** What follows a run of digits does not look like one. */
  lemma AfterRun(s: string, post: string)
    requires s != "" ==> !IsHexChar(s[0])
    ensures var r := EscapeText(s) + ("\"" + post); r != "" && !IsHexChar(r[0])
  {
    if s != "" {
      assert EscapeText(s)[0] == EscapeChar(s[0])[0];
    }
  }

  lemma Assoc(a: string, b: string, c: string)
    ensures (a + b) + c == a + (b + c)
  {
  }

  lemma {:induction false} LiteralOf(s: string, post: string, res: string)
    ensures ReadLiteral(EscapeText(s) + ("\"" + post), res) == Closed(res + ImageText(s), post)
    decreases |s|
  {
    hide EscapeChar, Unnamed, ReadLiteral;
    if s == "" {
      EndLiteral(post, res);
    } else if Unnamed(s[0]) {
      ControlLiteral(s, post, res);
    } else {
      var w := EscapeText(s[1..]) + ("\"" + post);
      Assoc(EscapeChar(s[0]), EscapeText(s[1..]), "\"" + post);
      PlainLiteral(s[0], w, res);
      LiteralOf(s[1..], post, res + [s[0]]);
      Assoc(res, [s[0]], ImageText(s[1..]));
    }
  }

  lemma EndLiteral(post: string, res: string)
    ensures ReadLiteral(EscapeText("") + ("\"" + post), res) == Closed(res + "", post)
  {
    var w := EscapeText("") + ("\"" + post);
    assert w[0] == '"' && w[1..] == post && res + "" == res;
  }

  /** A printable character or a named escape. */
  lemma PlainLiteral(c: char, w: string, res: string)
    requires !Unnamed(c)
    ensures ReadLiteral(EscapeChar(c) + w, res) == ReadLiteral(w, res + [c])
  {
    var v := EscapeChar(c) + w;
    if Named(c) {
      assert v[0] == '\\' && v[1] == Escape(c) && v[2..] == w;
    } else {
      assert v[0] == c && v[1..] == w;
    }
  }

  lemma {:induction false} ControlLiteral(s: string, post: string, res: string)
    requires s != "" && Unnamed(s[0])
    ensures ReadLiteral(EscapeText(s) + ("\"" + post), res) == Closed(res + ImageText(s), post)
    decreases |s|, 0
  {
    hide EscapeChar, ReadLiteral, HexNumber, HexCode, FromCharCode;
    assert Unnamed(s[0]) && s[0] < ' ';
    var h, n := HexCode(s[0] as nat), HexRun(s[1..]);
    var t, rest := s[1..1 + n], s[1 + n..];
    var w := EscapeText(rest) + ("\"" + post);
    assert s[1..][..n] == t && s[1..][n..] == rest;
    EscapeRun(s[1..], n);
    ControlText(s[0], s[1..], n, h, EscapeText(rest), "\"" + post);
    AfterRun(rest, post);
    HexReadRun(h + t, w, 0);
    HexLiteral(h + t, w, res);
    var c := FromCharCode(HexNumber(h + t, 0));
    LiteralOf(rest, post, res + [c]);
    Assoc(res, [c], ImageText(rest));
  }

  lemma ControlText(c: char, s: string, n: nat, h: string, e: string, post: string)
    requires Unnamed(c) && h == HexCode(c as nat) && n <= |s|
    ensures EscapeChar(c) + (s[..n] + e) + post == "\\x" + (h + s[..n] + (e + post))
  {
  }

  lemma HexLiteral(h: string, w: string, res: string)
    requires (forall k :: 0 <= k < |h| ==> IsHexChar(h[k])) && HexRead(h + w, 0) == (HexNumber(h, 0), w)
    ensures ReadLiteral("\\x" + (h + w), res) == ReadLiteral(w, res + [FromCharCode(HexNumber(h, 0))])
  {
    var v := "\\x" + (h + w);
    assert v[0] == '\\' && v[1] == 'x' && v[2..] == h + w;
  }

  // ----- which strings come back

  /** A control character without a name must have a code that is written without letters, and no
      digit may follow it. */
  predicate TextOk(s: string) {
    forall i :: 0 <= i < |s| && Unnamed(s[i]) ==> s[i] as nat % 16 < 10 && (i + 1 < |s| ==> !IsHexChar(s[i + 1]))
  }

  lemma DigitValue(n: nat)
    requires n < 16
    ensures HexValue(HexDigit(n)) == if n < 10 then n else n - 10
  {
  }

  lemma OneDigit()
    ensures HexDigit(1) == '1'
  {
  }

  lemma CodeNumber(n: nat)
    requires n < 32
    ensures HexNumber(HexCode(n), 0) == n / 16 * 16 + if n % 16 < 10 then n % 16 else n % 16 - 10
  {
    hide HexValue, HexDigit;
    var h, d := HexCode(n), HexDigit(n % 16);
    DigitValue(n % 16);
    DigitValue(1);
    OneDigit();
    if n < 16 {
      assert h == [d] && h[1..] == "";
    } else {
      assert h == ['1', d] && h[1..] == [d] && [d][1..] == "";
      assert HexNumber(h, 0) == HexNumber([d], 1) == HexNumber("", 16 + HexValue(d));
    }
  }

  lemma ControlCode(c: char)
    requires Unnamed(c)
    ensures FromCharCode(HexNumber(HexCode(c as nat), 0)) == c <==> c as nat % 16 < 10
  {
    hide HexNumber, HexCode, Escape;
    CodeNumber(c as nat);
  }

  lemma {:induction false} ImageShorter(s: string)
    ensures |ImageText(s)| <= |s|
    decreases |s|
  {
    if s != "" {
      ImageShorter(s[if Unnamed(s[0]) then 1 + HexRun(s[1..]) else 1..]);
    }
  }

  /** A string comes back as it was exactly when it meets the condition. */
  lemma {:induction false} ImageSame(s: string)
    ensures ImageText(s) == s <==> TextOk(s)
    decreases |s|
  {
    hide Escape, IsHexChar, FromCharCode, HexNumber, HexCode;
    if s != "" {
      var n := if Unnamed(s[0]) then HexRun(s[1..]) else 0;
      ImageSame(s[1..]);
      ImageShorter(s[1 + n..]);
      TextOkTail(s);
      if Unnamed(s[0]) && n == 0 {
        ControlCode(s[0]);
        assert HexCode(s[0] as nat) + s[1..1] == HexCode(s[0] as nat);
      }
      assert s == [s[0]] + s[1..];
      if Unnamed(s[0]) && n > 0 { assert IsHexChar(s[1..][0]); }
    }
  }

  lemma TextOkTail(s: string)
    requires s != ""
    ensures TextOk(s) <==> TextOk(s[1..]) && (Unnamed(s[0]) ==> s[0] as nat % 16 < 10 && (1 < |s| ==> !IsHexChar(s[1])))
  {
    hide Unnamed, IsHexChar;
    if TextOk(s) {
      forall i | 0 <= i < |s[1..]| && Unnamed(s[1..][i])
        ensures s[1..][i] as nat % 16 < 10 && (i + 1 < |s[1..]| ==> !IsHexChar(s[1..][i + 1]))
      {
        assert s[1..][i] == s[i + 1];
      }
    }
    if TextOk(s[1..]) {
      forall i | 1 <= i < |s| && Unnamed(s[i]) ensures s[i] as nat % 16 < 10 && (i + 1 < |s| ==> !IsHexChar(s[i + 1])) {
        assert s[1..][i - 1] == s[i];
      }
    }
  }

  // ----- data

  /** Identifier characters only; the single point must not be followed by a space. */
  predicate NameOk(name: string, space: bool) {
    name != "" && (forall k :: 0 <= k < |name| ==> IsIdChar(name[k])) && (name == "." ==> !space)
  }

  /** Pairs, (), booleans, the unspecified value, strings and symbols whose names are made of
      identifier characters; `space` when a space follows. */
  predicate Writable(d: Datum, space: bool)
    decreases d
  {
    match d
    case Nil => true
    case Bool(_) => true
    case Unspecified => true
    case EofObject => false
    case Number(_) => false
    case Text(s) => if IsSymbol(s) then NameOk(s[1..], space) else !IsKeyword(s)
    case Pair(car, cdr) => Writable(car, !cdr.Nil?) && Writable(cdr, false)
  }

  /** What reading makes of a written datum. */
  function Image(d: Datum): Datum {
    match d
    case Text(s) =>
      if !IsSymbol(s) then Text(ImageText(s)) else if IsNumeric(s[1..]) then Number(s[1..]) else d
    case Pair(car, cdr) => Pair(Image(car), Image(cdr))
    case _ => d
  }

  /** The datum comes back: no symbol looks like a number, and every string is well-behaved. */
  predicate Stable(d: Datum) {
    match d
    case Text(s) => if IsSymbol(s) then !IsNumeric(s[1..]) else TextOk(s)
    case Pair(car, cdr) => Stable(car) && Stable(cdr)
    case _ => true
  }

  lemma {:induction false} ImageStable(d: Datum)
    ensures Image(d) == d <==> Stable(d)
  {
    match d
    case Text(s) => ImageSame(s);
    case Pair(car, cdr) => ImageStable(car); ImageStable(cdr);
    case _ =>
  }

  predicate Delimited(post: string) {
    post == "" || post[0] == ' ' || post[0] == ')'
  }

  predicate Spaced(post: string) {
    post != "" && post[0] == ' '
  }

  lemma IdPrefix(name: string, post: string)
    requires (forall k :: 0 <= k < |name| ==> IsIdChar(name[k])) && Delimited(post)
    ensures IdLength(name + post) == |name| && (name + post)[..|name|] == name && (name + post)[|name|..] == post
  {
    var w := name + post;
    assert forall k :: 0 <= k < |name| ==> w[k] == name[k];
    assert post != "" ==> w[|name|] == post[0] && !IsIdChar(post[0]);
    hide IsIdChar;
  }

  lemma IdCharPlain(c: char)
    requires IsIdChar(c)
    ensures !IsWhitespace(c) && c != ';' && Bracket(c) == Error && c != '\'' && c != '#' && c != '"'
  {
  }

  lemma SymbolToken(name: string, post: string)
    requires NameOk(name, Spaced(post)) && Delimited(post)
    ensures NextToken(name + post) == (if IsNumeric(name) then Num(name) else Id(name), post)
  {
    hide IsIdChar, IsNumeric, Bracket;
    var w := name + post;
    assert w[0] == name[0];
    IdCharPlain(name[0]);
    IdPrefix(name, post);
    if |name| > 1 {
      assert w[1] == name[1];
      IdCharPlain(name[1]);
    }
  }

  lemma StringToken(s: string, post: string)
    ensures NextToken("\"" + EscapeText(s) + "\"" + post) == (Str(ImageText(s)), post)
  {
    hide EscapeText, ImageText, ReadLiteral;
    var w := "\"" + EscapeText(s) + "\"" + post;
    LiteralOf(s, post, "");
    assert w[0] == '"' && w[1..] == EscapeText(s) + ("\"" + post);
    assert "" + ImageText(s) == ImageText(s);
  }

  lemma SpaceSkipped(w: string, k: nat)
    ensures NextToken(" " + w) == NextToken(w) && Read(" " + w) == Read(w) && ReadList(" " + w, k) == ReadList(w, k)
  {
    assert (" " + w)[1..] == w;
    assert SkipSpace(" " + w) == SkipSpace(w);
  }

  lemma SharpToken(b: bool, post: string)
    requires Delimited(post)
    ensures NextToken((if b then "#t" else "#f") + post) == (Truth(b), post)
  {
    var w := (if b then "#t" else "#f") + post;
    assert w[0] == '#' && w[1] == (if b then 't' else 'f') && w[1..][1..] == post;
  }

  lemma UnspecifiedSharp(post: string)
    requires Delimited(post)
    ensures NextToken("#unspecified" + post) == (UnspecifiedToken, post)
  {
    var w := "#unspecified" + post;
    var v := w[1..];
    assert w[0] == '#' && v == "unspecified" + post;
    assert v[0] == 'u' && v[..11] == "unspecified" && v[11..] == post;
  }

  lemma NilRead(post: string)
    ensures Read("()" + post) == Done(Nil, post)
  {
    var w := "()" + post;
    assert w[0] == '(' && w[1..] == ")" + post;
    CloseToken(post);
  }

  lemma CloseToken(post: string)
    ensures NextToken(")" + post) == (Close(1), post) && ReadList(")" + post, 1) == Done(Nil, post)
  {
    var w := ")" + post;
    assert w[0] == ')' && w[1..] == post;
  }

  lemma DotToken(w: string)
    ensures NextToken(" . " + w) == (Dot, " " + w)
  {
    var v := " . " + w;
    assert v[0] == ' ' && v[1..][0] == '.' && v[1..][1] == ' ' && v[1..][1..] == " " + w;
    assert SkipSpace(v) == v[1..];
  }

  lemma OpenRead(w: string)
    ensures Read("(" + w) == ReadList(w, 1)
  {
    var v := "(" + w;
    assert v[0] == '(' && v[1..] == w;
  }

  /** An atom is read as its image. */
  lemma AtomRead(d: Datum, post: string)
    requires !d.Pair? && Writable(d, Spaced(post)) && Delimited(post)
    ensures Read(Write(d) + post) == Done(Image(d), post)
  {
    hide NextToken, ReadList, EscapeText, ImageText, NameOk, Delimited, IsNumeric;
    match d
    case Nil => NilRead(post);
    case Bool(b) => SharpToken(b, post);
    case Unspecified => UnspecifiedSharp(post);
    case Text(s) =>
      if IsSymbol(s) {
        SymbolToken(s[1..], post);
        assert [SYMBOL_PREFIX] + s[1..] == s;
      } else {
        StringToken(s, post);
      }
  }

  /** A read that does not end the list goes on with it. */
  lemma ListStep(w: string, k: nat, d: Datum, rest: string)
    requires Read(w) == Done(d, rest) && d != EofObject
    ensures ReadList(w, k) == match ReadList(rest, k) { case Fail => Fail case Done(ds, rest') => Done(Pair(d, ds), rest') }
  {
    hide NextToken;
  }

  lemma ImageNotEof(d: Datum, space: bool)
    requires Writable(d, space)
    ensures Image(d) != EofObject
  {
  }

  /** Reading what was written gives the image of the datum, and leaves what follows. */
  lemma {:induction false} ReadWrite(d: Datum, post: string)
    requires Writable(d, Spaced(post)) && Delimited(post)
    ensures Read(Write(d) + post) == Done(Image(d), post)
    decreases d, 1
  {
    hide Read, ReadList, WriteTail;
    if d.Pair? {
      ReadTail(d, post);
      Assoc("(", WriteTail(d), post);
      OpenRead(WriteTail(d) + post);
    } else {
      AtomRead(d, post);
    }
  }

  lemma {:induction false} ReadTail(d: Datum, post: string)
    requires d.Pair? && Writable(d, false)
    ensures ReadList(WriteTail(d) + post, 1) == Done(Image(d), post)
    decreases d, 0
  {
    hide Read, ReadList, Write, NextToken;
    var car, cdr := Write(d.car), WriteEnd(d.cdr);
    Assoc(car, cdr, post);
    EndDelimited(d.cdr, post);
    ReadWrite(d.car, cdr + post);
    ImageNotEof(d.car, !d.cdr.Nil?);
    ListStep(car + (cdr + post), 1, Image(d.car), cdr + post);
    if d.cdr.Pair? {
      ReadTail(d.cdr, post);
      Assoc(" ", WriteTail(d.cdr), post);
      SpaceSkipped(WriteTail(d.cdr) + post, 1);
    } else if d.cdr.Nil? {
      CloseToken(post);
    } else {
      ReadWrite(d.cdr, ")" + post);
      DotEnd(Write(d.cdr), post, Image(d.cdr));
    }
  }

  /** What follows the first element. */
  function WriteEnd(d: Datum): string {
    if d.Pair? then " " + WriteTail(d) else if d.Nil? then ")" else " . " + Write(d) + ")"
  }

  lemma EndDelimited(d: Datum, post: string)
    ensures Delimited(WriteEnd(d) + post) && (Spaced(WriteEnd(d) + post) <==> !d.Nil?)
  {
    hide Write, WriteTail;
    assert (WriteEnd(d) + post)[0] == WriteEnd(d)[0];
  }

  lemma DotEnd(w: string, post: string, d: Datum)
    requires Read(w + (")" + post)) == Done(d, ")" + post)
    ensures ReadList(" . " + w + ")" + post, 1) == Done(d, post)
  {
    hide Read, NextToken;
    DotRegroup(w, post);
    DotToken(w + (")" + post));
    SpaceSkipped(w + (")" + post), 1);
    CloseToken(post);
  }

  lemma DotRegroup(w: string, post: string)
    ensures " . " + w + ")" + post == " . " + (w + (")" + post))
  {
  }

  /** Printing then parsing is the identity exactly on the stable data. */
  lemma RoundTrip(d: Datum)
    requires Writable(d, false)
    ensures Read(Write(d)) == Done(Image(d), "")
    ensures Read(Write(d)) == Done(d, "") <==> Stable(d)
  {
    ReadWrite(d, "");
    assert Write(d) + "" == Write(d);
    ImageStable(d);
  }

  // ----- single strings, symbols and keywords, whatever their characters

  /** An identifier that is not a number, after the prefix. */
  predicate ReadableSymbol(t: string) {
    IsSymbol(t) && NameOk(t[1..], false) && !IsNumeric(t[1..])
  }

  /** A text that is read is a readable symbol, or is shorter by two quotes than what was read. */
  lemma {:induction false} TextRead(w: string)
    requires Read(w).Done? && Read(w).datum.Text?
    ensures ReadableSymbol(Read(w).datum.s) || |Read(w).datum.s| + 2 <= |w|
    decreases |w|, 1
  {
    hide NextToken;
    TokenText(w);
    var (token, rest) := NextToken(w);
    if token.Open? { TextInList(rest, token.bracket); }
  }

  lemma {:induction false} TextInList(w: string, k: nat)
    requires ReadList(w, k).Done? && ReadList(w, k).datum.Text?
    ensures ReadableSymbol(ReadList(w, k).datum.s) || |ReadList(w, k).datum.s| + 2 <= |w|
    decreases |w|, 0
  {
    hide NextToken, Read, ReadableSymbol;
    TextRead(NextToken(w).1);
  }

  lemma TokenText(w: string)
    ensures var token := NextToken(w).0;
      (token.Id? ==> ReadableSymbol([SYMBOL_PREFIX] + token.id)) && (token.Str? ==> |token.val| + 2 <= |w|)
  {
    hide IsNumeric, IsIdChar, SkipSpace, Bracket;
    var token := NextToken(w).0;
    if token.Id? {
      IdNotEmpty(SkipSpace(w));
      assert ([SYMBOL_PREFIX] + token.id)[1..] == token.id;
    }
  }

  lemma IdNotEmpty(s: string)
    requires s != "" && (IsIdChar(s[0]) || s[0] == '.')
    ensures IdLength(s) > 0
  {
  }

  predicate AtomOk(s: string) {
    if IsSymbol(s) then NameOk(s[1..], false) && !IsNumeric(s[1..]) else !IsKeyword(s) && TextOk(s)
  }

  /** A symbol comes back exactly when its name is an identifier and not a number, a string exactly
      when it meets the condition on control characters, a keyword never. */
  lemma AtomRoundTrip(s: string)
    ensures (Read(Write(Text(s))).Done? && Read(Write(Text(s))).datum == Text(s)) <==> AtomOk(s)
  {
    hide Read, EscapeText, IsNumeric, TextOk, ImageText;
    var d := Text(s);
    if Writable(d, false) {
      RoundTrip(d);
    } else if Read(Write(d)).Done? && Read(Write(d)).datum == d {
      TextRead(Write(d));
    }
  }

  // ----- data without quotation marks, whatever the names of their symbols

  predicate QuoteFree(w: string) {
    '"' !in w
  }

  lemma {:induction false} SkipQuoteFree(w: string)
    requires QuoteFree(w)
    ensures QuoteFree(SkipSpace(w)) && QuoteFree(SkipLine(w))
    decreases |w|
  {
    if w != "" {
      SkipQuoteFree(w[1..]);
      if w[0] == ';' { SkipQuoteFree(SkipLine(w[1..])); }
    }
  }

  /** Without a quotation mark there is no literal. */
  lemma TokenQuoteFree(w: string)
    requires QuoteFree(w)
    ensures !NextToken(w).0.Str? && QuoteFree(NextToken(w).1)
  {
    hide IsNumeric, IsIdChar, SkipSpace, SkipLine, Bracket, ReadLiteral, StartsWith, IdLength;
    SkipQuoteFree(w);
    var s := SkipSpace(w);
    if s != "" {
      assert s[0] in s && QuoteFree(s[1..]);
      if |s| > 1 { assert QuoteFree(s[1..][1..]); }
      if |s| > 12 { assert QuoteFree(s[1..][11..]); }
      assert QuoteFree(s[IdLength(s)..]);
    }
  }

  /** Every text in the datum is a symbol that can be read, or the mark of a quotation. */
  predicate Symbolic(d: Datum) {
    match d
    case Text(s) => ReadableSymbol(s) || s == "quote"
    case Pair(car, cdr) => Symbolic(car) && Symbolic(cdr)
    case _ => true
  }

  lemma {:induction false} ReadSymbolic(w: string)
    requires QuoteFree(w) && Read(w).Done?
    ensures Symbolic(Read(w).datum) && QuoteFree(Read(w).rest)
    decreases |w|, 1
  {
    hide NextToken, ReadableSymbol, QuoteFree;
    TokenQuoteFree(w);
    TokenText(w);
    var (token, rest) := NextToken(w);
    if token.Open? {
      ListSymbolic(rest, token.bracket);
    } else if token.Quote? {
      ReadSymbolic(rest);
      QuotedSymbolic(Read(rest).datum);
    }
  }

  lemma QuotedSymbolic(d: Datum)
    requires Symbolic(d)
    ensures Symbolic(Pair(Text("quote"), Pair(d, Nil)))
  {
    assert Symbolic(Pair(d, Nil)) && Symbolic(Text("quote"));
  }

  lemma {:induction false} ListSymbolic(w: string, k: nat)
    requires QuoteFree(w) && ReadList(w, k).Done?
    ensures Symbolic(ReadList(w, k).datum) && QuoteFree(ReadList(w, k).rest)
    decreases |w|, 2
  {
    hide NextToken, QuoteFree, Read;
    TokenQuoteFree(w);
    var (token, rest) := NextToken(w);
    if token.Dot? {
      ReadSymbolic(rest);
      TokenQuoteFree(Read(rest).rest);
    } else if !token.Close? {
      ReadSymbolic(w);
      ListSymbolic(Read(w).rest, k);
    }
  }

  /** All texts are symbols whose names are identifiers and do not look like numbers. */
  predicate Identifiers(d: Datum) {
    match d
    case Text(s) => ReadableSymbol(s)
    case Pair(car, cdr) => Identifiers(car) && Identifiers(cdr)
    case _ => true
  }

  lemma {:induction false} WithoutStrings(d: Datum)
    requires Symbolic(d) && QuoteFree(Write(d))
    ensures Identifiers(d)
  {
    hide ReadableSymbol, EscapeText;
    match d
    case Text(s) => QuoteText();
    case Pair(car, cdr) =>
      PartsQuoteFree(d);
      WithoutStrings(car);
      WithoutStrings(cdr);
    case _ =>
  }

  lemma QuoteText()
    ensures !QuoteFree(Write(Text("quote")))
  {
    assert Write(Text("quote"))[0] == '"';
  }

  lemma PartsQuoteFree(d: Datum)
    requires d.Pair? && QuoteFree(Write(d))
    ensures QuoteFree(Write(d.car)) && QuoteFree(Write(d.cdr))
  {
    hide Write;
    TailQuoteFree(d);
    if d.cdr.Pair? {
      assert Write(d.cdr) == "(" + WriteTail(d.cdr) by { OpenText(d.cdr); }
    } else if d.cdr.Nil? {
      OpenText(d.cdr);
    }
  }

  lemma OpenText(d: Datum)
    ensures d.Pair? ==> Write(d) == "(" + WriteTail(d)
    ensures d.Nil? ==> Write(d) == "()"
  {
  }

  lemma TailQuoteFree(d: Datum)
    requires d.Pair? && QuoteFree(Write(d))
    ensures QuoteFree(Write(d.car)) && (d.cdr.Pair? ==> QuoteFree(WriteTail(d.cdr))) && (!d.cdr.Pair? && !d.cdr.Nil? ==> QuoteFree(Write(d.cdr)))
  {
    OpenText(d);
    hide Write;
    assert forall c :: c in WriteTail(d) ==> c in "(" + WriteTail(d);
  }

  /** No end of file, no number, and no symbol that is a single point. */
  predicate Plain(d: Datum) {
    match d
    case EofObject => false
    case Number(_) => false
    case Text(s) => s != [SYMBOL_PREFIX] + "."
    case Pair(car, cdr) => Plain(car) && Plain(cdr)
    case _ => true
  }

  lemma {:induction false} IdentifiersWritable(d: Datum, space: bool)
    requires Plain(d) && Identifiers(d)
    ensures Writable(d, space) && Stable(d)
    decreases d
  {
    hide IsNumeric;
    match d
    case Text(s) => assert s == [s[0]] + s[1..];
    case Pair(car, cdr) =>
      IdentifiersWritable(car, !cdr.Nil?);
      IdentifiersWritable(cdr, false);
    case _ =>
  }

  /** Whatever the names of the symbols: a datum whose text has no quotation mark in it comes back if and only
      if all names are identifiers that do not look like numbers. */
  lemma SymbolsRoundTrip(d: Datum)
    requires Plain(d) && QuoteFree(Write(d))
    ensures (Read(Write(d)).Done? && Read(Write(d)).datum == d) <==> Identifiers(d)
  {
    hide Read, Write, QuoteFree;
    if Identifiers(d) {
      IdentifiersWritable(d, false);
      RoundTrip(d);
    } else if Read(Write(d)).Done? && Read(Write(d)).datum == d {
      ReadSymbolic(Write(d));
      WithoutStrings(d);
    }
  }

  // ----- data that do not come back

  lemma NumberSymbol()
    ensures var d := Text([SYMBOL_PREFIX] + "12"); !AtomOk(d.s) && Read(Write(d)) == Done(Number("12"), "")
  {
    hide *;
    var s := [SYMBOL_PREFIX] + "12";
    assert s[1..] == "12";
    TwelveNumeric();
    TwelveSymbol();
    RoundTrip(Text(s));
  }

  lemma TwelveNumeric()
    ensures IsNumeric("12")
  {
    hide Radix;
    assert Unsigned("12") == "12";
    assert Find("12", ".") == 2 by { assert "12"[1..] == "2" && "2"[1..] == ""; }
    assert Find("12", "eE") == 2 by { assert "12"[1..] == "2" && "2"[1..] == ""; }
    assert "12"[..2] == "12";
  }

  lemma TwelveSymbol()
    requires IsNumeric("12")
    ensures var d := Text([SYMBOL_PREFIX] + "12"); Writable(d, false) && Image(d) == Number("12") && !AtomOk(d.s)
  {
    hide IsNumeric;
    assert ([SYMBOL_PREFIX] + "12")[1..] == "12";
  }

  lemma SpacedSymbol()
    ensures !AtomOk([SYMBOL_PREFIX] + "a b")
  {
    var s := [SYMBOL_PREFIX] + "a b";
    assert s[1..][1] == ' ';
  }

  lemma ImageOfControl(c: char)
    requires Unnamed(c)
    ensures ImageText([c]) == [FromCharCode(HexNumber(HexCode(c as nat), 0))]
  {
    var s := [c];
    assert s[1..] == "" && HexRun("") == 0 && s[1..1] == "" && ImageText("") == "";
    assert HexCode(c as nat) + "" == HexCode(c as nat);
  }

  /** The code 14 is written with a letter, which is read as 4. */
  lemma LetterCode()
    ensures !AtomOk("\U{e}") && Read(Write(Text("\U{e}"))) == Done(Text("\U{4}"), "")
  {
    hide *;
    Fourteen();
    RoundTrip(Text("\U{e}"));
  }

  lemma Fourteen()
    ensures Writable(Text("\U{e}"), false) && Image(Text("\U{e}")) == Text("\U{4}") && !AtomOk("\U{e}")
  {
    hide HexCode, HexNumber;
    assert Unnamed('\U{e}');
    CodeNumber(14);
    ImageOfControl('\U{e}');
    assert FromCharCode(4) == '\U{4}';
    assert Unnamed("\U{e}"[0]);
  }

  lemma SwallowedDigit()
    ensures !AtomOk("\U{1}7")
  {
    var s := "\U{1}7";
    assert Unnamed(s[0]) && IsHexChar(s[1]);
  }

  /** The list of the symbol `.` and another one is read as the other symbol. */
  lemma PointInList(name: string)
    requires NameOk(name, true) && !IsNumeric(name)
    ensures var x := Text([SYMBOL_PREFIX] + name);
      var d := Pair(Text([SYMBOL_PREFIX] + "."), Pair(x, Nil)); Read(Write(d)) == Done(x, "")
  {
    hide IsNumeric, IsIdChar, Read;
    var x := Text([SYMBOL_PREFIX] + name);
    var d := Pair(Text([SYMBOL_PREFIX] + "."), Pair(x, Nil));
    assert ([SYMBOL_PREFIX] + ".")[1..] == "." && x.s[1..] == name;
    var w := " " + (name + ")");
    assert Write(x) == name && WriteTail(d.cdr) == name + ")" && Write(d.car) == ".";
    assert WriteTail(d) == Write(d.car) + (" " + WriteTail(d.cdr));
    PointToken(w);
    OpenRead("." + w);
    SpaceSkipped(name + ")", 1);
    assert Writable(x, false);
    ReadWrite(x, ")");
    CloseToken("");
    assert ")" + "" == ")";
    PointList(w, x);
  }

  lemma PointToken(w: string)
    requires w != "" && w[0] == ' '
    ensures NextToken("." + w) == (Dot, w)
  {
    var v := "." + w;
    assert v[0] == '.' && v[1] == ' ' && v[1..] == w;
  }

  lemma PointList(w: string, x: Datum)
    requires NextToken("." + w) == (Dot, w) && Read(w) == Done(x, ")") && NextToken(")") == (Close(1), "")
    ensures ReadList("." + w, 1) == Done(x, "")
  {
    hide NextToken, Read;
  }
}
