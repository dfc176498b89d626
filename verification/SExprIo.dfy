/** The writer, and the reader over its tokenizer and port. */
module SExprIo {
  import opened Common
  import opened SExpr
  import opened SExprTrip

  // ----- writing

  lemma {:induction false} EscapeSnoc(s: string, c: char)
    ensures EscapeText(s + [c]) == EscapeText(s) + EscapeChar(c)
  {
    hide EscapeChar;
    if s == "" {
      assert (s + [c])[1..] == "";
    } else {
      assert (s + [c])[1..] == s[1..] + [c];
      EscapeSnoc(s[1..], c);
      Assoc(EscapeChar(s[0]), EscapeText(s[1..]), EscapeChar(c));
    }
  }

  /** `sc_escapeWriteString`: runs of plain characters are copied in one piece. */
  method EscapeWriteString(s: string) returns (res: string)
    ensures res == EscapeText(s)
  {
    hide EscapeText, EscapeChar, Escape;
    res := "";
    var j := 0;
    NoText();
    assert s[..0] == "";
    for i := 0 to |s|
      invariant 0 <= j <= i && res + s[j..i] == EscapeText(s[..i])
    {
      assert s[..i + 1] == s[..i] + [s[i]];
      EscapeSnoc(s[..i], s[i]);
      PlainChar(s[i]);
      if Named(s[i]) {
        res := res + s[j..i] + ['\\', Escape(s[i])];
        j := i + 1;
      } else if s[i] < ' ' {
        res := res + s[j..i] + "\\x" + HexCode(s[i] as nat);
        j := i + 1;
      } else {
        assert s[j..i + 1] == s[j..i] + [s[i]];
      }
    }
    res := res + s[j..];
    assert s[..|s|] == s;
  }

  lemma NoText()
    ensures EscapeText("") == ""
  {
  }

  lemma PlainChar(c: char)
    ensures EscapeChar(c) == if Named(c) then ['\\', Escape(c)] else if c < ' ' then "\\x" + HexCode(c as nat) else [c]
  {
  }

  /** `sc_toWriteString`. */
  method ToWriteString(d: Datum) returns (res: string)
    ensures res == Write(d)
    decreases d, 1
  {
    match d
    case Text(s) =>
      if IsSymbol(s) {
        res := s[1..];
      } else if IsKeyword(s) {
        res := ":" + s[1..];
      } else {
        var e := EscapeWriteString(s);
        res := "\"" + e + "\"";
      }
    case Pair(_, _) => res := PairToWriteString(d);
    case Nil => res := "()";
    case Bool(b) => res := if b then "#t" else "#f";
    case Unspecified => res := "#unspecified";
    case EofObject => res := "[object Object]";
    case Number(text) => res := text;
  }

  /** The loop over the pairs of a list. */
  method PairToWriteString(d: Datum) returns (res: string)
    requires d.Pair?
    ensures res == Write(d)
    decreases d, 0
  {
    hide Write;
    var current := d;
    res := "(";
    while true
      invariant current.Pair? && (current == d || current < d) && res + WriteTail(current) == "(" + WriteTail(d)
      decreases current
    {
      var car := ToWriteString(current.car);
      Assoc(res, car, WriteEnd(current.cdr));
      res := res + car;
      if current.cdr.Pair? {
        Assoc(res, " ", WriteTail(current.cdr));
        res := res + " ";
        current := current.cdr;
      } else if !current.cdr.Nil? {
        var cdr := ToWriteString(current.cdr);
        Assoc(res, " . " + cdr, ")");
        res := res + (" . " + cdr);
        break;
      } else {
        break;
      }
    }
    res := res + ")";
    PairText(d);
  }

  lemma PairText(d: Datum)
    requires d.Pair?
    ensures Write(d) == "(" + WriteTail(d)
  {
  }

  // ----- the port

  function First(s: string): Option<char> {
    if s == "" then None else Some(s[0])
  }

  function Tail(s: string): string {
    if s == "" then "" else s[1..]
  }

  /** A port on a string; a character that was peeked at is kept. */
  class InputPort {
    const str: string
    var pos: nat
    var peeked: Option<Option<char>>

    ghost predicate Valid()
      reads this
    {
      pos <= |str| &&
      match peeked
      case None => true
      case Some(None) => pos == |str|
      case Some(Some(c)) => pos > 0 && str[pos - 1] == c
    }

    /** What is still to be read. */
    ghost function Rest(): string
      requires Valid()
      reads this
    {
      if peeked.Some? && peeked.value.Some? then str[pos - 1..] else str[pos..]
    }

    constructor (s: string)
      ensures Valid() && Rest() == s
    {
      str, pos, peeked := s, 0, None;
    }

    method GetNextChar() returns (c: Option<char>)
      requires Valid() && peeked.None?
      modifies this`pos
      ensures Valid() && c == First(old(Rest())) && Rest() == Tail(old(Rest()))
      ensures pos == if c.Some? then old(pos) + 1 else old(pos)
    {
      if pos >= |str| {
        return None;
      }
      c := Some(str[pos]);
      pos := pos + 1;
    }

    method PeekChar() returns (c: Option<char>)
      requires Valid()
      modifies this
      ensures Valid() && Rest() == old(Rest()) && c == First(Rest()) && peeked == Some(c)
    {
      if peeked.None? {
        var next := GetNextChar();
        peeked := Some(next);
      }
      c := peeked.value;
    }

    method ReadChar() returns (c: Option<char>)
      requires Valid()
      modifies this
      ensures Valid() && c == First(old(Rest())) && Rest() == Tail(old(Rest()))
    {
      c := PeekChar();
      peeked := None;
    }
  }

  // ----- the tokenizer

  method SkipWhitespaceAndComments(port: InputPort)
    requires port.Valid()
    modifies port
    ensures port.Valid() && port.Rest() == SkipSpace(old(port.Rest()))
  {
    ghost var s := port.Rest();
    var done := false;
    while !done
      invariant port.Valid() && SkipSpace(port.Rest()) == SkipSpace(s) && (done ==> port.Rest() == SkipSpace(s))
      decreases |port.Rest()|, !done
    {
      SkipBlanks(port);
      var c := port.PeekChar();
      done := true;
      if c == Some(';') {
        c := port.ReadChar();
        SkipComment(port);
        done := false;
      }
    }
  }

  method SkipBlanks(port: InputPort)
    requires port.Valid()
    modifies port
    ensures port.Valid() && SkipSpace(port.Rest()) == SkipSpace(old(port.Rest())) && |port.Rest()| <= |old(port.Rest())|
    ensures port.Rest() != "" ==> !IsWhitespace(port.Rest()[0])
  {
    var c := port.PeekChar();
    while c.Some? && IsWhitespace(c.value)
      invariant port.Valid() && SkipSpace(port.Rest()) == SkipSpace(old(port.Rest())) && |port.Rest()| <= |old(port.Rest())|
      invariant c == First(port.Rest())
      decreases |port.Rest()|
    {
      c := port.ReadChar();
      c := port.PeekChar();
    }
  }

  method SkipComment(port: InputPort)
    requires port.Valid()
    modifies port
    ensures port.Valid() && port.Rest() == SkipLine(old(port.Rest()))
  {
    while true
      invariant port.Valid() && SkipLine(port.Rest()) == SkipLine(old(port.Rest()))
      decreases |port.Rest()|
    {
      var c := port.ReadChar();
      if c == None || c == Some('\n') {
        break;
      }
    }
  }

  /** The digits after a backslash and an `x`. */
  method ReadHex(port: InputPort) returns (nb: nat)
    requires port.Valid()
    modifies port
    ensures port.Valid() && (nb, port.Rest()) == HexRead(old(port.Rest()), 0) && |port.Rest()| <= |old(port.Rest())|
  {
    hide HexValue;
    nb := 0;
    while true
      invariant port.Valid() && HexRead(port.Rest(), nb) == HexRead(old(port.Rest()), 0) && |port.Rest()| <= |old(port.Rest())|
      decreases |port.Rest()|
    {
      var c := port.PeekChar();
      if c.Some? && HexValue(c.value) >= 0 {
        nb := nb * 16 + HexValue(c.value);
        c := port.ReadChar();
      } else {
        break;
      }
    }
  }

  /** A string literal after its opening quote. */
  method ReadString(port: InputPort) returns (token: Token)
    requires port.Valid()
    modifies port
    ensures port.Valid()
    ensures match ReadLiteral(old(port.Rest()), "")
      case Unclosed => token == Error
      case Closed(val, rest) => token == Str(val) && port.Rest() == rest
  {
    ghost var s := port.Rest();
    var res := "";
    while true
      invariant port.Valid() && ReadLiteral(port.Rest(), res) == ReadLiteral(s, "")
      decreases |port.Rest()|
    {
      var c := port.ReadChar();
      match c
      case None => return Error;
      case Some(q) =>
        if q == '"' {
          return Str(res);
        } else if q == '\\' {
          var e := port.ReadChar();
          match e
          case None => return Error;
          case Some(x) =>
            if x == 'x' {
              var nb := ReadHex(port);
              res := res + [FromCharCode(nb)];
            } else {
              res := res + [Unescape(x)];
            }
        } else {
          res := res + [q];
        }
    }
  }

  lemma IdResult(res: string, rest: string)
    requires (forall k :: 0 <= k < |res| ==> IsIdChar(res[k])) && (rest != "" ==> !IsIdChar(rest[0]))
    ensures IdOrNumber(res + rest) == (if IsNumeric(res) then Num(res) else Id(res), rest)
  {
    hide IsIdChar, IsNumeric;
    var s := res + rest;
    assert forall k :: 0 <= k < |res| ==> s[k] == res[k];
    assert rest != "" ==> s[|res|] == rest[0];
    assert s[..|res|] == res && s[|res|..] == rest;
  }

  lemma MoveChar(res: string, rest: string)
    requires rest != ""
    ensures (res + [rest[0]]) + rest[1..] == res + rest
  {
  }

  /** An identifier or a number after its first character. */
  method ReadIdOrNumber(port: InputPort, firstChar: char) returns (token: Token)
    requires port.Valid() && IsIdChar(firstChar)
    modifies port
    ensures port.Valid() && (token, port.Rest()) == IdOrNumber([firstChar] + old(port.Rest()))
  {
    hide IsIdChar, IsNumeric, IdOrNumber;
    ghost var s := [firstChar] + port.Rest();
    var res := [firstChar];
    var c := port.PeekChar();
    while c.Some? && IsIdChar(c.value)
      invariant port.Valid() && res + port.Rest() == s && c == First(port.Rest()) && forall k :: 0 <= k < |res| ==> IsIdChar(res[k])
      decreases |port.Rest()|
    {
      MoveChar(res, port.Rest());
      res := res + [c.value];
      c := port.ReadChar();
      c := port.PeekChar();
    }
    IdResult(res, port.Rest());
    token := if IsNumeric(res) then Num(res) else Id(res);
  }

  /** What follows a sharp sign, for the constants. */
  method ReadSharp(port: InputPort) returns (token: Token)
    requires port.Valid()
    modifies port
    ensures port.Valid() && token == Sharp(old(port.Rest())).0
    ensures token != Error && token != Other ==> port.Rest() == Sharp(old(port.Rest())).1
  {
    ghost var s := port.Rest();
    var c := port.ReadChar();
    if c == None || IsWhitespace(c.value) {
      return Error;
    }
    if IsDigit(c.value) || c.value == '(' || c.value == '\\' {
      return Other;
    }
    var needing := "";
    if c.value == 't' {
      token := Truth(true);
    } else if c.value == 'f' {
      token := Truth(false);
    } else if c.value == 'u' {
      token, needing := UnspecifiedToken, "nspecified";
    } else {
      return Error;
    }
    var ok := ReadNeeded(port, needing);
    if c.value == 'u' { SharpUnspecified(s); }
    if !ok {
      token := Error;
    }
  }

  /** The rest of a constant, up to its end. */
  method ReadNeeded(port: InputPort, needing0: string) returns (ok: bool)
    requires port.Valid() && forall k :: 0 <= k < |needing0| ==> !IsWhitespace(needing0[k])
    modifies port
    ensures port.Valid() && (ok <==> StartsWith(old(port.Rest()), needing0) && Ends(old(port.Rest())[|needing0|..]))
    ensures ok ==> port.Rest() == old(port.Rest())[|needing0|..]
  {
    ghost var s, n := port.Rest(), 0;
    var needing := needing0;
    while true
      invariant port.Valid() && 0 <= n <= |needing0| && needing == needing0[n..] && n <= |s| && s[..n] == needing0[..n] && port.Rest() == s[n..]
      decreases |needing|
    {
      var c := port.PeekChar();
      NeededStep(s, needing0, n);
      if (c == None || IsWhitespace(c.value) || c.value == ')') && needing == "" {
        return true;
      } else if (c.Some? && IsWhitespace(c.value)) || needing == "" {
        return false;
      } else if c == Some(needing[0]) {
        c := port.ReadChar();
        needing := needing[1..];
        n := n + 1;
      } else {
        return false;
      }
    }
  }

  lemma NeededStep(s: string, needed: string, n: nat)
    requires n <= |s| && n <= |needed| && s[..n] == needed[..n]
    ensures n == |needed| ==> StartsWith(s, needed)
    ensures n < |needed| ==> if n < |s| && s[n] == needed[n] then s[..n + 1] == needed[..n + 1] else !StartsWith(s, needed)
  {
  }

  lemma SharpUnspecified(s: string)
    requires s != "" && s[0] == 'u'
    ensures StartsWith(s, "unspecified") <==> StartsWith(s[1..], "nspecified")
    ensures StartsWith(s, "unspecified") ==> s[11..] == s[1..][10..]
  {
    if |s| >= 11 {
      assert s[..11] == [s[0]] + s[1..][..10];
      assert "unspecified" == "u" + "nspecified";
    }
  }

  /** Tokens after which reading goes on. */
  predicate Usable(token: Token) {
    token != Error && token != Other
  }

  /** What the tokenizer does, started at the text `s` and ending before `rest`. */
  ghost predicate Tokenized(s: string, token: Token, rest: string) {
    token == NextToken(s).0 && (Usable(token) ==> rest == NextToken(s).1)
  }

  /** A point: the mark of a dotted pair, or the beginning of a name. */
  method ReadDot(port: InputPort) returns (token: Token)
    requires port.Valid()
    modifies port
    ensures port.Valid() && Tokenized("." + old(port.Rest()), token, port.Rest())
  {
    hide IdOrNumber, NextToken;
    DotCases(port.Rest());
    var c := port.PeekChar();
    if c.Some? && IsWhitespace(c.value) {
      return Dot;
    }
    token := ReadIdOrNumber(port, '.');
  }

  lemma DotCases(s: string)
    ensures NextToken("." + s) == if s != "" && IsWhitespace(s[0]) then (Dot, s) else IdOrNumber("." + s)
    ensures IsIdChar('.') && IdOrNumber("." + s).0 != Error && IdOrNumber("." + s).0 != Other
  {
    hide IdLength, IsNumeric;
    var v := "." + s;
    assert v[0] == '.' && v[1..] == s;
    Skipped(v);
  }

  method NextTokenFrom(port: InputPort) returns (token: Token)
    requires port.Valid()
    modifies port
    ensures port.Valid() && Tokenized(old(port.Rest()), token, port.Rest())
  {
    hide IdOrNumber, ReadLiteral, Sharp, IsIdChar;
    ghost var s0 := port.Rest();
    SkipWhitespaceAndComments(port);
    ghost var s := port.Rest();
    SkipTwice(s0);
    var c := port.ReadChar();
    if c == None {
      return Eof;
    }
    assert s == [c.value] + port.Rest();
    if Bracket(c.value) != Error {
      return Bracket(c.value);
    }
    match c.value
    case '\'' => return Quote;
    case '#' => token := ReadSharp(port);
    case '.' => token := ReadDot(port);
    case '"' => token := ReadString(port);
    case _ =>
      if IsIdChar(c.value) {
        token := ReadIdOrNumber(port, c.value);
      } else {
        token := Error;
      }
  }

  lemma SkipTwice(s: string)
    ensures SkipSpace(SkipSpace(s)) == SkipSpace(s) && NextToken(SkipSpace(s)) == NextToken(s)
  {
    Skipped(SkipSpace(s));
  }

  lemma Skipped(s: string)
    requires s != "" ==> !IsWhitespace(s[0]) && s[0] != ';'
    ensures SkipSpace(s) == s
  {
  }

  class Tokenizer {
    const port: InputPort
    var peeked: Option<Token>
    ghost var start: string

    ghost predicate Valid()
      reads this, port
    {
      port.Valid() && (peeked.Some? ==> Tokenized(start, peeked.value, port.Rest()))
    }

    /** What is still to be read, the peeked token included. */
    ghost function Rest(): string
      requires Valid()
      reads this, port
    {
      if peeked.Some? then start else port.Rest()
    }

    constructor (port: InputPort)
      requires port.Valid()
      ensures Valid() && this.port == port && Rest() == port.Rest()
    {
      this.port, peeked, start := port, None, "";
    }

    method PeekToken() returns (token: Token)
      requires Valid()
      modifies this, port
      ensures Valid() && Rest() == old(Rest()) && token == NextToken(Rest()).0 && peeked == Some(token)
    {
      if peeked.Some? {
        return peeked.value;
      }
      start := port.Rest();
      token := NextTokenFrom(port);
      peeked := Some(token);
    }

    method ReadToken() returns (token: Token)
      requires Valid()
      modifies this, port
      ensures Valid() && Tokenized(old(Rest()), token, Rest())
    {
      token := PeekToken();
      peeked := None;
    }
  }

  // ----- the reader

  /** A list read so far, last element first, put in front of what follows. */
  function ReverseAppend(res: Datum, d: Datum): Datum {
    match res
    case Pair(car, cdr) => ReverseAppend(cdr, Pair(car, d))
    case _ => d
  }

  function After(res: Datum, r: Outcome): Outcome {
    match r
    case Fail => Fail
    case Done(d, rest) => Done(ReverseAppend(res, d), rest)
  }

  function Cons(d: Datum, r: Outcome): Outcome {
    match r
    case Fail => Fail
    case Done(ds, rest) => Done(Pair(d, ds), rest)
  }

  lemma AfterCons(res: Datum, car: Datum, r: Outcome)
    ensures After(Pair(car, res), r) == After(res, Cons(car, r))
  {
  }

  lemma NothingBefore(s: string, k: nat)
    ensures After(Nil, ReadList(s, k)) == ReadList(s, k)
  {
    hide ReadList;
  }

  function Dotted(r: Outcome, k: nat): Outcome {
    match r
    case Fail => Fail
    case Done(d, rest) => if NextToken(rest).0 == Close(k) then Done(d, NextToken(rest).1) else Fail
  }

  function More(r: Outcome, k: nat): Outcome {
    match r
    case Fail => Fail
    case Done(d, rest) => Cons(d, ReadList(rest, k))
  }

  /** How a list goes on, by its next token. */
  lemma ListCases(s: string, k: nat)
    ensures NextToken(s).0.Close? ==> ReadList(s, k) == if NextToken(s).0.bracket == k then Done(Nil, NextToken(s).1) else Fail
    ensures NextToken(s).0.Eof? ==> ReadList(s, k) == Fail
    ensures NextToken(s).0.Dot? ==> ReadList(s, k) == Dotted(Read(NextToken(s).1), k)
    ensures !NextToken(s).0.Close? && !NextToken(s).0.Eof? && !NextToken(s).0.Dot? ==> ReadList(s, k) == More(Read(s), k)
  {
    hide NextToken;
  }

  /** The datum of a successful read, with the rest left. */
  ghost predicate Returned(r: Outcome, d: Option<Datum>, rest: string) {
    match r
    case Fail => d == None
    case Done(datum, rest') => d == Some(datum) && rest == rest'
  }

  class Reader {
    const tokenizer: Tokenizer

    constructor (tokenizer: Tokenizer)
      ensures this.tokenizer == tokenizer
    {
      this.tokenizer := tokenizer;
    }

    /** `sc_Reader.read`: the next datum, or an exception. */
    method Read() returns (d: Option<Datum>)
      requires tokenizer.Valid()
      modifies tokenizer, tokenizer.port
      ensures tokenizer.Valid() && Returned(SExpr.Read(old(tokenizer.Rest())), d, tokenizer.Rest())
      decreases |tokenizer.Rest()|, 1
    {
      hide NextToken, ReadList;
      ghost var s := tokenizer.Rest();
      var token := tokenizer.ReadToken();
      match token
      case Open(k) => d := ReadListFrom(k);
      case Quote =>
        var datum := Read();
        d := match datum case None => None case Some(x) => Some(Pair(Text("quote"), Pair(x, Nil)));
      case Str(val) => d := Some(Text(val));
      case Id(id) => d := Some(Text([SYMBOL_PREFIX] + id));
      case Num(number) => d := Some(Number(number));
      case Truth(b) => d := Some(Bool(b));
      case UnspecifiedToken => d := Some(Unspecified);
      case Eof => d := Some(EofObject);
      case _ => d := None;
    }

    /** The elements of a list after its opening bracket. */
    method ReadListFrom(k: nat) returns (d: Option<Datum>)
      requires tokenizer.Valid()
      modifies tokenizer, tokenizer.port
      ensures tokenizer.Valid() && Returned(ReadList(old(tokenizer.Rest()), k), d, tokenizer.Rest())
      decreases |tokenizer.Rest()|, 2
    {
      hide NextToken, SExpr.Read, ReadList, ReverseAppend;
      ghost var s := tokenizer.Rest();
      var res := Nil;
      NothingBefore(s, k);
      while true
        invariant tokenizer.Valid() && |tokenizer.Rest()| <= |s| && After(res, ReadList(tokenizer.Rest(), k)) == ReadList(s, k)
        decreases |tokenizer.Rest()|
      {
        ghost var w := tokenizer.Rest();
        var token := tokenizer.PeekToken();
        ListCases(w, k);
        match token
        case Close(k') =>
          if k' == k {
            token := tokenizer.ReadToken();
            return Some(ReverseAppend(res, Nil));
          }
          return None;
        case Eof => return None;
        case Dot =>
          token := tokenizer.ReadToken();
          var cdr := Read();
          if cdr == None { return None; }
          var close := tokenizer.ReadToken();
          if close != Close(k) { return None; }
          return Some(ReverseAppend(res, cdr.value));
        case _ =>
          var car := Read();
          if car == None { return None; }
          AfterCons(res, car.value, ReadList(tokenizer.Rest(), k));
          res := Pair(car.value, res);
      }
    }
  }

  /** `sc_read` of what `sc_write` wrote to a string port. */
  method WriteRead(d: Datum) returns (r: Option<Datum>)
    requires Writable(d, false)
    ensures r == Some(Image(d)) && (r == Some(d) <==> Stable(d))
  {
    var w := ToWriteString(d);
    var port := new InputPort(w);
    var tokenizer := new Tokenizer(port);
    var reader := new Reader(tokenizer);
    r := reader.Read();
    RoundTrip(d);
  }
}
