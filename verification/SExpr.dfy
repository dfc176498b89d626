/** Scheme data as text: what `sc_write` writes and what `sc_read` makes of it. */
module SExpr {

  const SYMBOL_PREFIX := '\U{1E9C}'
  const KEYWORD_PREFIX := '\U{1E9D}'

  /** A JavaScript string is a symbol when it begins with the one prefix, a keyword with the other. */
  datatype Datum =
    | Nil
    | Bool(b: bool)
    | Unspecified
    | EofObject
    | Number(text: string)
    | Text(s: string)
    | Pair(car: Datum, cdr: Datum)

  predicate IsSymbol(s: string) {
    s != "" && s[0] == SYMBOL_PREFIX
  }

  predicate IsKeyword(s: string) {
    s != "" && s[0] == KEYWORD_PREFIX
  }

  // ----- writing

  function HexDigit(n: nat): char
    requires n < 16
  {
    "0123456789abcdef"[n]
  }

  /** `toString(16)` of a code below 32. */
  function HexCode(n: nat): (h: string)
    requires n < 32
    ensures forall k :: 0 <= k < |h| ==> HexValue(h[k]) >= 0
  {
    if n < 16 then [HexDigit(n)] else ['1', HexDigit(n - 16)]
  }

  /** The letter of a named escape. */
  function Escape(c: char): (e: char)
    ensures e == ' ' || e in ['0', 'b', 'f', 'n', 'r', 't', 'v', '"', '\\']
  {
    match c
    case '\0' => '0'
    case '\U{8}' => 'b'
    case '\U{C}' => 'f'
    case '\n' => 'n'
    case '\r' => 'r'
    case '\t' => 't'
    case '\U{B}' => 'v'
    case '"' => '"'
    case '\\' => '\\'
    case _ => ' '
  }

  predicate Named(c: char) {
    Escape(c) != ' '
  }

  /** A control character without a name. */
  predicate Unnamed(c: char) {
    c < ' ' && !Named(c)
  }

  function EscapeChar(c: char): string {
    if Named(c) then ['\\', Escape(c)]
    else if c < ' ' then "\\x" + HexCode(c as nat)
    else [c]
  }

  function EscapeText(s: string): string {
    if s == "" then "" else EscapeChar(s[0]) + EscapeText(s[1..])
  }

  function Write(d: Datum): string
    decreases d, 1
  {
    match d
    case Nil => "()"
    case Bool(b) => if b then "#t" else "#f"
    case Unspecified => "#unspecified"
    case EofObject => "[object Object]"
    case Number(text) => text
    case Text(s) =>
      if IsSymbol(s) then s[1..]
      else if IsKeyword(s) then ":" + s[1..]
      else "\"" + EscapeText(s) + "\""
    case Pair(_, _) => "(" + WriteTail(d)
  }

  /** The elements from a pair on, and the closing parenthesis. */
  function WriteTail(d: Datum): string
    requires d.Pair?
    decreases d, 0
  {
    Write(d.car) +
    if d.cdr.Pair? then " " + WriteTail(d.cdr)
    else if d.cdr.Nil? then ")"
    else " . " + Write(d.cdr) + ")"
  }

  // ----- tokens

  datatype Token =
    | Eof
    | Open(bracket: nat)
    | Close(bracket: nat)
    | Quote
    | Id(id: string)
    | Dot
    | Str(val: string)
    | Num(number: string)
    | Truth(b: bool)
    | UnspecifiedToken
    | Other
    | Error

  predicate IsDigit(c: char) {
    '0' <= c <= '9'
  }

  predicate IsIdChar(c: char) {
    'a' <= c <= 'z' || 'A' <= c <= 'Z' || c in "!$%*+-./:<=>?@^_~" || IsDigit(c)
  }

  predicate IsWhitespace(c: char) {
    c == ' ' || c == '\r' || c == '\n' || c == '\t' || c == '\U{C}'
  }

  /** The rest of the input after spaces and comments. */
  function SkipSpace(s: string): (r: string)
    ensures |r| <= |s| && (r != "" ==> !IsWhitespace(r[0]) && r[0] != ';')
    decreases |s|
  {
    if s == "" then s
    else if IsWhitespace(s[0]) then SkipSpace(s[1..])
    else if s[0] == ';' then SkipSpace(SkipLine(s[1..]))
    else s
  }

  function SkipLine(s: string): (r: string)
    ensures |r| <= |s|
  {
    if s == "" then s else if s[0] == '\n' then s[1..] else SkipLine(s[1..])
  }

  /** The identifier characters at the front. */
  function IdLength(s: string): (n: nat)
    ensures n <= |s| && (forall k :: 0 <= k < n ==> IsIdChar(s[k])) && (n < |s| ==> !IsIdChar(s[n]))
  {
    if s == "" || !IsIdChar(s[0]) then 0 else 1 + IdLength(s[1..])
  }

  // ----- what JavaScript takes for a number

  predicate AllDigits(s: string) {
    forall k :: 0 <= k < |s| ==> IsDigit(s[k])
  }

  predicate Digits(s: string) {
    s != "" && AllDigits(s)
  }

  function Unsigned(s: string): string {
    if s != "" && (s[0] == '+' || s[0] == '-') then s[1..] else s
  }

  function Find(s: string, cs: string): (n: nat)
    ensures n <= |s|
  {
    if s == "" || s[0] in cs then 0 else 1 + Find(s[1..], cs)
  }

  /** Digits with at most one point and with a digit on one side of it. */
  predicate Mantissa(s: string) {
    var n := Find(s, ".");
    if n == |s| then Digits(s) else AllDigits(s[..n]) && AllDigits(s[n + 1..]) && |s| > 1
  }

  predicate Decimal(s: string) {
    var n := Find(s, "eE");
    Mantissa(s[..n]) && (n < |s| ==> Digits(Unsigned(s[n + 1..])))
  }

  predicate Radix(s: string, letters: string, digits: string) {
    |s| > 2 && s[0] == '0' && s[1] in letters && forall k :: 2 <= k < |s| ==> s[k] in digits
  }

  /** The text is the notation of a number: `isNaN` of it is false. */
  predicate IsNumeric(s: string) {
    Unsigned(s) == "Infinity" || Decimal(Unsigned(s)) ||
    Radix(s, "xX", "0123456789abcdefABCDEF") || Radix(s, "oO", "01234567") || Radix(s, "bB", "01")
  }

  function IdOrNumber(s: string): (Token, string) {
    var n := IdLength(s);
    (if IsNumeric(s[..n]) then Num(s[..n]) else Id(s[..n]), s[n..])
  }

  // ----- string literals

  /** The reader's value of a hexadecimal digit: the letters count from zero again. */
  function HexValue(c: char): (v: int)
    ensures -1 <= v < 10
  {
    if '0' <= c <= '9' then (c - '0') as int
    else if 'a' <= c <= 'f' then (c - 'a') as int
    else if 'A' <= c <= 'F' then (c - 'A') as int
    else -1
  }

  /** The number in the digits at the front, after `nb`, and what follows. */
  function HexRead(s: string, nb: nat): (r: (nat, string))
    ensures |r.1| <= |s|
    decreases |s|
  {
    if s == "" || HexValue(s[0]) < 0 then (nb, s) else HexRead(s[1..], nb * 16 + HexValue(s[0]))
  }

  /** `String.fromCharCode`; a lone surrogate is modelled as the replacement character. */
  function FromCharCode(nb: nat): char {
    var n := nb % 0x1_0000;
    if 0xd800 <= n < 0xe000 then '\U{FFFD}' else n as char
  }

  /** What the character after a backslash stands for. */
  function Unescape(c: char): char {
    match c
    case '0' => '\0'
    case 'b' => '\U{8}'
    case 'f' => '\U{C}'
    case 'n' => '\n'
    case 'r' => '\r'
    case 't' => '\t'
    case 'v' => '\U{B}'
    case _ => c
  }

  datatype Literal = Unclosed | Closed(val: string, rest: string)

  /** The literal up to the closing quote, after the text `res`. */
  function ReadLiteral(s: string, res: string): (r: Literal)
    ensures r.Closed? ==> |r.rest| < |s| && |r.val| < |res| + |s| - |r.rest|
    decreases |s|
  {
    if s == "" then Unclosed
    else if s[0] == '"' then Closed(res, s[1..])
    else if s[0] != '\\' then ReadLiteral(s[1..], res + [s[0]])
    else if |s| == 1 then Unclosed
    else if s[1] == 'x' then
      var h := HexRead(s[2..], 0);
      ReadLiteral(h.1, res + [FromCharCode(h.0)])
    else ReadLiteral(s[2..], res + [Unescape(s[1])])
  }

  // ----- the next token

  predicate Ends(s: string) {
    s == "" || IsWhitespace(s[0]) || s[0] == ')'
  }

  function StartsWith(s: string, p: string): bool {
    |p| <= |s| && s[..|p|] == p
  }

  function Sharp(s: string): (r: (Token, string))
    ensures |r.1| <= |s|
  {
    if s == "" then (Error, s)
    else if IsDigit(s[0]) || s[0] == '(' || s[0] == '\\' then (Other, s[1..])
    else if s[0] == 't' && Ends(s[1..]) then (Truth(true), s[1..])
    else if s[0] == 'f' && Ends(s[1..]) then (Truth(false), s[1..])
    else if StartsWith(s, "unspecified") && Ends(s[11..]) then (UnspecifiedToken, s[11..])
    else (Error, s[1..])
  }

  function Bracket(c: char): (t: Token)
    ensures t.Open? || t.Close? || t == Error
  {
    match c
    case '(' => Open(1)
    case ')' => Close(1)
    case '{' => Open(3)
    case '}' => Close(3)
    case '[' => Open(5)
    case ']' => Close(5)
    case _ => Error
  }

  /** The token at the front of the input, and what follows it. */
  function NextToken(s0: string): (r: (Token, string))
    ensures |r.1| <= |s0| && (r.0 != Eof && r.0 != Error ==> |r.1| < |s0|)
  {
    var s := SkipSpace(s0);
    if s == "" then (Eof, s)
    else if Bracket(s[0]) != Error then (Bracket(s[0]), s[1..])
    else if s[0] == '\'' then (Quote, s[1..])
    else if s[0] == '#' then Sharp(s[1..])
    else if s[0] == '.' && |s| > 1 && IsWhitespace(s[1]) then (Dot, s[1..])
    else if s[0] == '"' then
      match ReadLiteral(s[1..], "")
      case Unclosed => (Error, "")
      case Closed(val, rest) => (Str(val), rest)
    else if IsIdChar(s[0]) then IdOrNumber(s)
    else (Error, s[1..])
  }

  // ----- reading

  datatype Outcome = Fail | Done(datum: Datum, rest: string)

  function Read(s: string): (r: Outcome)
    ensures r.Done? ==> |r.rest| <= |s| && (NextToken(s).0 != Eof ==> |r.rest| < |s|)
    decreases |s|, 1
  {
    var (token, rest) := NextToken(s);
    match token
    case Eof => Done(EofObject, rest)
    case Open(k) => ReadList(rest, k)
    case Quote =>
      (match Read(rest)
       case Fail => Fail
       case Done(d, rest') => Done(Pair(Text("quote"), Pair(d, Nil)), rest'))
    case Str(val) => Done(Text(val), rest)
    case Id(id) => Done(Text([SYMBOL_PREFIX] + id), rest)
    case Num(number) => Done(Number(number), rest)
    case Truth(b) => Done(Bool(b), rest)
    case UnspecifiedToken => Done(Unspecified, rest)
    case _ => Fail
  }

  /** The elements up to the closing bracket. */
  function ReadList(s: string, k: nat): (r: Outcome)
    ensures r.Done? ==> |r.rest| < |s|
    decreases |s|, 2
  {
    var (token, rest) := NextToken(s);
    match token
    case Close(k') => if k' == k then Done(Nil, rest) else Fail
    case Eof => Fail
    case Error => Fail
    case Dot =>
      (match Read(rest)
       case Fail => Fail
       case Done(d, rest') =>
         var (close, rest'') := NextToken(rest');
         if close == Close(k) then Done(d, rest'') else Fail)
    case _ =>
      (match Read(s)
       case Fail => Fail
       case Done(d, rest') =>
         match ReadList(rest', k)
         case Fail => Fail
         case Done(ds, rest'') => Done(Pair(d, ds), rest''))
  }
}
