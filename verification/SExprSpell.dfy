/** The ways to spell a Scheme datum, apart from the reader: what `sc_read` accepts, and as which datum. */
module SExprSpell {
  import opened Common
  import opened SExpr

  // ----- characters

  const LOWER := "abcdefghijklmnopqrstuvwxyz"
  const UPPER := "ABCDEFGHIJKLMNOPQRSTUVWXYZ"
  const FIGURES := "0123456789"
  const SIGNS := "!$%*+-./:<=>?@^_~"
  const SPACES := " \r\n\t\U{C}"

  predicate NameChar(c: char) {
    c in LOWER || c in UPPER || c in FIGURES || c in SIGNS
  }

  lemma LowerIs(c: char)
    ensures c in LOWER <==> 'a' <= c <= 'z'
  {
    if 'a' <= c <= 'z' { assert LOWER[(c - 'a') as int] == c; }
  }

  lemma UpperIs(c: char)
    ensures c in UPPER <==> 'A' <= c <= 'Z'
  {
    if 'A' <= c <= 'Z' { assert UPPER[(c - 'A') as int] == c; }
  }

  lemma FigureIs(c: char)
    ensures c in FIGURES <==> IsDigit(c)
  {
    if '0' <= c <= '9' { assert FIGURES[(c - '0') as int] == c; }
  }

  lemma CharsAre(c: char)
    ensures IsIdChar(c) <==> NameChar(c)
    ensures IsWhitespace(c) <==> c in SPACES
  {
    LowerIs(c);
    UpperIs(c);
    FigureIs(c);
    hide IsDigit;
  }

  // ----- what may stand between tokens

  /** A whitespace character, or a comment with the end of its line. */
  datatype Blank = Space(c: char) | Comment(text: string)

  predicate BlanksOk(bs: seq<Blank>) {
    forall k :: 0 <= k < |bs| ==> if bs[k].Space? then IsWhitespace(bs[k].c) else '\n' !in bs[k].text
  }

  /** The blanks, followed by `tail`. */
  function Blanks(bs: seq<Blank>, tail: string): string {
    if bs == [] then tail
    else
      match bs[0]
      case Space(c) => [c] + Blanks(bs[1..], tail)
      case Comment(text) => [';'] + (text + (['\n'] + Blanks(bs[1..], tail)))
  }

  // ----- string literals

  /** A character as it is; a character after a backslash; or a backslash, an x and digits. */
  datatype Piece = Plain(c: char) | Escaped(c: char) | Code(digits: string)

  const ESCAPES := map['0' := '\0', 'b' := '\U{8}', 'f' := '\U{C}', 'n' := '\n', 'r' := '\r', 't' := '\t', 'v' := '\U{B}']

  /** A digit counts what it is, and a letter its place among the six letters. */
  const DIGITS := map[
    '0' := 0, '1' := 1, '2' := 2, '3' := 3, '4' := 4, '5' := 5, '6' := 6, '7' := 7, '8' := 8, '9' := 9,
    'a' := 0, 'b' := 1, 'c' := 2, 'd' := 3, 'e' := 4, 'f' := 5, 'A' := 0, 'B' := 1, 'C' := 2, 'D' := 3, 'E' := 4, 'F' := 5]

  /** The number of the digits, the last one the lowest. */
  function NumberOf(digits: string): int
    requires HexDigits(digits)
  {
    if digits == "" then 0 else 16 * NumberOf(digits[..|digits| - 1]) + DIGITS[digits[|digits| - 1]]
  }

  predicate HexDigits(digits: string) {
    forall k :: 0 <= k < |digits| ==> digits[k] in DIGITS
  }

  predicate NoDigit(s: string) {
    s != "" ==> s[0] !in DIGITS
  }

  /** The character with a code of sixteen bits; a surrogate is no character. */
  function CharOf(n: nat): char {
    var code := n % 0x1_0000;
    if 0xd800 <= code < 0xe000 then '\U{FFFD}' else code as char
  }

  function Meaning(p: Piece): char {
    match p
    case Plain(c) => c
    case Escaped(c) => if c in ESCAPES then ESCAPES[c] else c
    case Code(digits) => if HexDigits(digits) && NumberOf(digits) >= 0 then CharOf(NumberOf(digits)) else ' '
  }

  function Meanings(ps: seq<Piece>): string {
    seq(|ps|, k requires 0 <= k < |ps| => Meaning(ps[k]))
  }

  /** The pieces and the closing quotation mark, followed by `tail`. */
  function Pieces(ps: seq<Piece>, tail: string): string {
    if ps == [] then ['"'] + tail
    else
      match ps[0]
      case Plain(c) => [c] + Pieces(ps[1..], tail)
      case Escaped(c) => ['\\', c] + Pieces(ps[1..], tail)
      case Code(digits) => ['\\', 'x'] + (digits + Pieces(ps[1..], tail))
  }

  predicate PiecesOk(ps: seq<Piece>, tail: string) {
    ps != [] ==>
      PiecesOk(ps[1..], tail) &&
      match ps[0]
      case Plain(c) => c != '"' && c != '\\'
      case Escaped(c) => c != 'x'
      case Code(digits) => HexDigits(digits) && NoDigit(Pieces(ps[1..], tail))
  }

  // ----- spellings

  /** The end of the text, perhaps in a comment; an atom; a quotation; or a list in brackets of shape `k`. Each
      with the blanks before it. */
  datatype Spelling =
    | Nothing(bs: seq<Blank>, comment: Option<string>)
    | Name(bs: seq<Blank>, id: string)
    | Literal(bs: seq<Blank>, pieces: seq<Piece>)
    | Constant(bs: seq<Blank>, b: bool)
    | Unspecific(bs: seq<Blank>)
    | Quoted(bs: seq<Blank>, sp: Spelling)
    | Listed(bs: seq<Blank>, k: nat, items: Spellings)

  /** The elements of a list and its closing bracket; the last one may come after a point. */
  datatype Spellings =
    | Closing(bs: seq<Blank>, k: nat)
    | Dotted(bs: seq<Blank>, sp: Spelling, cs: seq<Blank>, k: nat)
    | Item(sp: Spelling, rest: Spellings)

  /** The three shapes. */
  predicate Shape(k: nat) {
    k == 1 || k == 3 || k == 5
  }

  function Opener(k: nat): char {
    if k == 1 then '(' else if k == 3 then '{' else '['
  }

  function Closer(k: nat): char {
    if k == 1 then ')' else if k == 3 then '}' else ']'
  }

  /** The text of a spelling, followed by `tail`. */
  function Spelt(sp: Spelling, tail: string): string
    decreases sp
  {
    match sp
    case Nothing(bs, comment) => Blanks(bs, match comment case None => tail case Some(text) => [';'] + (text + tail))
    case Name(bs, id) => Blanks(bs, id + tail)
    case Literal(bs, ps) => Blanks(bs, ['"'] + Pieces(ps, tail))
    case Constant(bs, b) => Blanks(bs, ['#', if b then 't' else 'f'] + tail)
    case Unspecific(bs) => Blanks(bs, ['#'] + ("unspecified" + tail))
    case Quoted(bs, sp') => Blanks(bs, ['\''] + Spelt(sp', tail))
    case Listed(bs, k, items) => Blanks(bs, [Opener(k)] + SpeltAll(items, tail))
  }

  function SpeltAll(items: Spellings, tail: string): string
    decreases items
  {
    match items
    case Closing(bs, k) => Blanks(bs, [Closer(k)] + tail)
    case Dotted(bs, sp, cs, k) => Blanks(bs, ['.'] + Spelt(sp, Blanks(cs, [Closer(k)] + tail)))
    case Item(sp, rest) => Spelt(sp, SpeltAll(rest, tail))
  }

  function Meant(sp: Spelling): Datum
    decreases sp
  {
    match sp
    case Nothing(_, _) => EofObject
    case Name(_, id) => if IsNumeric(id) then Number(id) else Text([SYMBOL_PREFIX] + id)
    case Literal(_, ps) => Text(Meanings(ps))
    case Constant(_, b) => Bool(b)
    case Unspecific(_) => Unspecified
    case Quoted(_, sp') => Pair(Text("quote"), Pair(Meant(sp'), Nil))
    case Listed(_, _, items) => MeantAll(items)
  }

  function MeantAll(items: Spellings): Datum
    decreases items
  {
    match items
    case Closing(_, _) => Nil
    case Dotted(_, sp, _, _) => Meant(sp)
    case Item(sp, rest) => Pair(Meant(sp), MeantAll(rest))
  }

  /** The shape of the closing bracket. */
  function ClosedBy(items: Spellings): nat {
    match items
    case Closing(_, k) => k
    case Dotted(_, _, _, k) => k
    case Item(_, rest) => ClosedBy(rest)
  }

  /** What may follow a constant: nothing, whitespace or a closing parenthesis. */
  predicate Apart(tail: string) {
    tail != "" ==> tail[0] in SPACES || tail[0] == ')'
  }

  /** A run of identifier characters; a single point must not be followed by whitespace. */
  predicate NameFits(id: string, tail: string) {
    id != "" && (forall k :: 0 <= k < |id| ==> IsIdChar(id[k])) && (tail != "" ==> !IsIdChar(tail[0])) &&
    (id == "." && tail != "" ==> !IsWhitespace(tail[0]))
  }

  /** The spelling is well-formed, its brackets close with their own shape, and the text after it does not run
      into it. */
  predicate Fits(sp: Spelling, tail: string)
    decreases sp, 0
  {
    BlanksOk(sp.bs) &&
    match sp
    case Nothing(_, comment) => tail == "" && (comment.Some? ==> '\n' !in comment.value)
    case Name(_, id) => NameFits(id, tail)
    case Literal(_, ps) => PiecesOk(ps, tail)
    case Constant(_, _) => Apart(tail)
    case Unspecific(_) => Apart(tail)
    case Quoted(_, sp') => Fits(sp', tail)
    case Listed(_, k, items) => Shape(k) && FitAll(items, tail) && ClosedBy(items) == k
  }

  predicate FitAll(items: Spellings, tail: string)
    decreases items, 1
  {
    match items
    case Closing(bs, k) => BlanksOk(bs) && Shape(k)
    case Dotted(bs, sp, cs, k) =>
      BlanksOk(bs) && BlanksOk(cs) && Shape(k) && Fits(sp, Blanks(cs, [Closer(k)] + tail)) &&
      Spelt(sp, Blanks(cs, [Closer(k)] + tail)) != "" && IsWhitespace(Spelt(sp, Blanks(cs, [Closer(k)] + tail))[0])
    case Item(sp, rest) => Fits(sp, SpeltAll(rest, tail)) && FitAll(rest, tail)
  }

  // ----- blanks are skipped

  lemma {:induction false} SkipLineOf(text: string, s: string)
    requires '\n' !in text
    ensures SkipLine(text + (['\n'] + s)) == s
  {
    var w := text + (['\n'] + s);
    if text == "" {
      assert w[1..] == s;
    } else {
      assert w[0] == text[0] && w[1..] == text[1..] + (['\n'] + s);
      SkipLineOf(text[1..], s);
    }
  }

  lemma {:induction false} SkipBlanks(bs: seq<Blank>, s: string)
    requires BlanksOk(bs)
    ensures SkipSpace(Blanks(bs, s)) == SkipSpace(s)
  {
    if bs != [] {
      SkipBlanks(bs[1..], s);
      var w := Blanks(bs, s);
      match bs[0]
      case Space(c) => assert w[0] == c && w[1..] == Blanks(bs[1..], s);
      case Comment(text) =>
        assert w[0] == ';' && w[1..] == text + (['\n'] + Blanks(bs[1..], s));
        SkipLineOf(text, Blanks(bs[1..], s));
    }
  }

  lemma TokenAfter(bs: seq<Blank>, s: string)
    requires BlanksOk(bs)
    ensures NextToken(Blanks(bs, s)) == NextToken(s)
  {
    SkipBlanks(bs, s);
  }

  /** The first character of a token is neither whitespace nor the start of a comment. */
  lemma NotSkipped(s: string)
    requires s != "" && !IsWhitespace(s[0]) && s[0] != ';'
    ensures SkipSpace(s) == s
  {
  }

  lemma {:induction false} SkipUnfinished(text: string)
    requires '\n' !in text
    ensures SkipLine(text) == ""
  {
    if text != "" { SkipUnfinished(text[1..]); }
  }

  // ----- literals are read

  lemma DigitIs(c: char)
    ensures c in DIGITS <==> HexValue(c) >= 0
    ensures c in DIGITS ==> DIGITS[c] == HexValue(c)
  {
  }

  lemma {:induction false} DigitsRead(digits: string, i: nat, s: string)
    requires HexDigits(digits) && i <= |digits| && NoDigit(s)
    ensures NumberOf(digits) >= 0 && NumberOf(digits[..i]) >= 0 && HexRead(digits[i..] + s, NumberOf(digits[..i])) == (NumberOf(digits), s)
    decreases |digits| - i
  {
    hide HexValue;
    NotNegative(digits[..i]);
    if i == |digits| {
      assert digits[..i] == digits && digits[i..] + s == s;
      if s != "" { DigitIs(s[0]); }
    } else {
      var w := digits[i..] + s;
      assert w[0] == digits[i] && w[1..] == digits[i + 1..] + s && digits[..i + 1][..i] == digits[..i];
      DigitIs(digits[i]);
      DigitsRead(digits, i + 1, s);
    }
  }

  lemma {:induction false} NotNegative(digits: string)
    requires HexDigits(digits)
    ensures NumberOf(digits) >= 0
  {
    if digits != "" {
      DigitIs(digits[|digits| - 1]);
      NotNegative(digits[..|digits| - 1]);
    }
  }

  lemma EscapeIs(c: char)
    ensures Unescape(c) == Meaning(Escaped(c))
  {
  }

  lemma MeaningsCons(ps: seq<Piece>, res: string)
    requires ps != []
    ensures res + [Meaning(ps[0])] + Meanings(ps[1..]) == res + Meanings(ps)
  {
    assert Meanings(ps) == [Meaning(ps[0])] + Meanings(ps[1..]);
  }

  lemma {:induction false} LiteralRead(ps: seq<Piece>, tail: string, res: string)
    requires PiecesOk(ps, tail)
    ensures ReadLiteral(Pieces(ps, tail), res) == Closed(res + Meanings(ps), tail)
    decreases |ps|
  {
    hide Meaning, Unescape, HexRead, FromCharCode, NoDigit;
    if ps == [] {
      assert (['"'] + tail)[1..] == tail && res + Meanings(ps) == res;
    } else {
      var next := Pieces(ps[1..], tail);
      MeaningsCons(ps, res);
      LiteralRead(ps[1..], tail, res + [Meaning(ps[0])]);
      match ps[0]
      case Plain(c) => PlainRead(c, next, res);
      case Escaped(c) => EscapedRead(c, next, res);
      case Code(digits) => CodeRead(digits, next, res);
    }
  }

  lemma PlainRead(c: char, s: string, res: string)
    requires c != '"' && c != '\\'
    ensures ReadLiteral([c] + s, res) == ReadLiteral(s, res + [Meaning(Plain(c))])
  {
    assert ([c] + s)[1..] == s;
  }

  lemma EscapedRead(c: char, s: string, res: string)
    requires c != 'x'
    ensures ReadLiteral(['\\', c] + s, res) == ReadLiteral(s, res + [Meaning(Escaped(c))])
  {
    EscapeIs(c);
    assert (['\\', c] + s)[2..] == s;
  }

  lemma CodeRead(digits: string, s: string, res: string)
    requires HexDigits(digits) && NoDigit(s)
    ensures ReadLiteral(['\\', 'x'] + (digits + s), res) == ReadLiteral(s, res + [Meaning(Code(digits))])
  {
    DigitsRead(digits, 0, s);
    assert digits[0..] == digits && digits[..0] == "";
    assert (['\\', 'x'] + (digits + s))[2..] == digits + s;
  }

  // ----- tokens

  lemma ApartIs(tail: string)
    ensures Apart(tail) <==> Ends(tail)
  {
    hide IsWhitespace;
    if tail != "" { CharsAre(tail[0]); }
  }

  lemma {:induction false} IdLengthIs(id: string, tail: string)
    requires (forall k :: 0 <= k < |id| ==> IsIdChar(id[k])) && (tail != "" ==> !IsIdChar(tail[0]))
    ensures IdLength(id + tail) == |id|
  {
    hide IsIdChar;
    if id == "" {
      assert id + tail == tail;
    } else {
      assert (id + tail)[0] == id[0] && (id + tail)[1..] == id[1..] + tail;
      IdLengthIs(id[1..], tail);
    }
  }

  lemma IdCharIs(c: char)
    requires IsIdChar(c)
    ensures !IsWhitespace(c) && c != ';' && Bracket(c) == Error && c != '\'' && c != '#' && c != '"'
  {
  }

  lemma NameToken(id: string, tail: string)
    requires NameFits(id, tail)
    ensures NextToken(id + tail) == (if IsNumeric(id) then Num(id) else Id(id), tail)
  {
    var w := id + tail;
    IdCharIs(id[0]);
    NotSkipped(w);
    IdLengthIs(id, tail);
    assert w[..|id|] == id && w[|id|..] == tail;
    if id[0] == '.' && |id| > 1 { IdCharIs(id[1]); }
  }

  lemma LiteralToken(ps: seq<Piece>, tail: string)
    requires PiecesOk(ps, tail)
    ensures NextToken(['"'] + Pieces(ps, tail)) == (Str(Meanings(ps)), tail)
  {
    var w := ['"'] + Pieces(ps, tail);
    NotSkipped(w);
    LiteralRead(ps, tail, "");
    assert w[1..] == Pieces(ps, tail) && "" + Meanings(ps) == Meanings(ps);
  }

  lemma ConstantToken(b: bool, tail: string)
    requires Apart(tail)
    ensures NextToken(['#', if b then 't' else 'f'] + tail) == (Truth(b), tail)
  {
    var w := ['#', if b then 't' else 'f'] + tail;
    ApartIs(tail);
    hide Ends;
    NotSkipped(w);
    assert w[1..][0] == (if b then 't' else 'f') && w[1..][1..] == tail;
  }

  lemma UnspecificToken(tail: string)
    requires Apart(tail)
    ensures NextToken(['#'] + ("unspecified" + tail)) == (UnspecifiedToken, tail)
  {
    var w := ['#'] + ("unspecified" + tail);
    ApartIs(tail);
    hide Ends;
    NotSkipped(w);
    var v := w[1..];
    assert v == "unspecified" + tail && v[..11] == "unspecified" && v[11..] == tail && v[0] == 'u';
  }

  lemma MarkToken(c: char, tail: string)
    requires c == '\'' || Bracket(c) != Error
    ensures NextToken([c] + tail) == (if c == '\'' then Quote else Bracket(c), tail)
  {
    NotSkipped([c] + tail);
    assert ([c] + tail)[1..] == tail;
  }

  lemma PointToken(tail: string)
    requires tail != "" && IsWhitespace(tail[0])
    ensures NextToken(['.'] + tail) == (Dot, tail)
  {
    var w := ['.'] + tail;
    NotSkipped(w);
    assert w[1] == tail[0] && w[1..] == tail;
  }

  lemma BracketsAre(k: nat)
    requires Shape(k)
    ensures Bracket(Opener(k)) == Open(k) && Bracket(Closer(k)) == Close(k) && Opener(k) != '\'' && Closer(k) != '\''
  {
  }

  lemma NothingToken(bs: seq<Blank>, comment: Option<string>)
    requires BlanksOk(bs) && (comment.Some? ==> '\n' !in comment.value)
    ensures NextToken(Spelt(Nothing(bs, comment), "")) == (Eof, "")
  {
    if comment.Some? {
      var w := [';'] + (comment.value + "");
      assert comment.value + "" == comment.value && w[1..] == comment.value;
      SkipUnfinished(comment.value);
      SkipBlanks(bs, w);
    } else {
      SkipBlanks(bs, "");
    }
  }

  // ----- what is spelled is read

  /** Every spelling is read as what it means, and the rest is left. */
  lemma {:induction false} ReadSpelt(sp: Spelling, tail: string)
    requires Fits(sp, tail)
    ensures Read(Spelt(sp, tail)) == Done(Meant(sp), tail)
    decreases sp, 0
  {
    hide NextToken, ReadList, Blanks, BlanksOk, NameFits, PiecesOk, Pieces, Meanings, IsNumeric, Apart, Closer, Opener, Bracket;
    match sp
    case Nothing(bs, comment) => NothingToken(bs, comment);
    case Name(bs, id) =>
      TokenAfter(bs, id + tail);
      NameToken(id, tail);
    case Literal(bs, ps) =>
      TokenAfter(bs, ['"'] + Pieces(ps, tail));
      LiteralToken(ps, tail);
    case Constant(bs, b) =>
      TokenAfter(bs, ['#', if b then 't' else 'f'] + tail);
      ConstantToken(b, tail);
    case Unspecific(bs) =>
      TokenAfter(bs, ['#'] + ("unspecified" + tail));
      UnspecificToken(tail);
    case Quoted(bs, sp') =>
      TokenAfter(bs, ['\''] + Spelt(sp', tail));
      MarkToken('\'', Spelt(sp', tail));
      ReadSpelt(sp', tail);
    case Listed(bs, k, items) =>
      TokenAfter(bs, [Opener(k)] + SpeltAll(items, tail));
      BracketsAre(k);
      MarkToken(Opener(k), SpeltAll(items, tail));
      ListSpelt(items, tail, k);
  }

  /** The elements are read up to the closing bracket; one of another shape is an error. */
  lemma {:induction false} ListSpelt(items: Spellings, tail: string, k: nat)
    requires FitAll(items, tail)
    ensures ReadList(SpeltAll(items, tail), k) == if ClosedBy(items) == k then Done(MeantAll(items), tail) else Fail
    decreases items, 1
  {
    hide NextToken, Read, Blanks, BlanksOk, Closer, Opener, Bracket, Spelt, Fits;
    match items
    case Closing(bs, k') =>
      TokenAfter(bs, [Closer(k')] + tail);
      BracketsAre(k');
      MarkToken(Closer(k'), tail);
    case Dotted(bs, sp, cs, k') =>
      var after := Blanks(cs, [Closer(k')] + tail);
      TokenAfter(bs, ['.'] + Spelt(sp, after));
      PointToken(Spelt(sp, after));
      ReadSpelt(sp, after);
      TokenAfter(cs, [Closer(k')] + tail);
      BracketsAre(k');
      MarkToken(Closer(k'), tail);
    case Item(sp, rest) =>
      ReadSpelt(sp, SpeltAll(rest, tail));
      ListSpelt(rest, tail, k);
      NotEmpty(rest, tail);
      ItemStep(Spelt(sp, SpeltAll(rest, tail)), Meant(sp), SpeltAll(rest, tail), k);
  }

  lemma {:induction false} BlanksLonger(bs: seq<Blank>, s: string)
    ensures |Blanks(bs, s)| >= |s|
  {
    if bs != [] { BlanksLonger(bs[1..], s); }
  }

  lemma {:induction false} NotEmpty(items: Spellings, tail: string)
    requires FitAll(items, tail)
    ensures SpeltAll(items, tail) != ""
    decreases items
  {
    match items
    case Closing(bs, k) => BlanksLonger(bs, [Closer(k)] + tail);
    case Dotted(bs, sp, cs, k) => BlanksLonger(bs, ['.'] + Spelt(sp, Blanks(cs, [Closer(k)] + tail)));
    case Item(sp, rest) =>
      NotEmpty(rest, tail);
      hide Read;
      ReadSpelt(sp, SpeltAll(rest, tail));
  }

  lemma EofEmpty(s: string)
    ensures NextToken(s).0 == Eof ==> NextToken(s).1 == ""
  {
    hide IsNumeric, ReadLiteral, IdLength;
  }

  lemma ItemStep(s: string, d: Datum, rest: string, k: nat)
    requires Read(s) == Done(d, rest) && rest != ""
    ensures ReadList(s, k) == match ReadList(rest, k) case Fail => Fail case Done(ds, r) => Done(Pair(d, ds), r)
  {
    hide NextToken;
    EofEmpty(s);
  }

  /** A list that closes with a bracket of another shape is an error, whatever follows. */
  lemma WrongBracket(bs: seq<Blank>, k: nat, items: Spellings, tail: string)
    requires BlanksOk(bs) && Shape(k) && FitAll(items, tail) && ClosedBy(items) != k
    ensures Read(Blanks(bs, [Opener(k)] + SpeltAll(items, tail))) == Fail
  {
    hide NextToken, ReadList, Blanks, BlanksOk, Opener, Bracket, SpeltAll, FitAll;
    TokenAfter(bs, [Opener(k)] + SpeltAll(items, tail));
    BracketsAre(k);
    MarkToken(Opener(k), SpeltAll(items, tail));
    ListSpelt(items, tail, k);
  }

  // ----- what is read is spelled

  /** A line comment: with the end of its line, or the last one of the text. */
  lemma {:induction false} LineOf(s: string) returns (text: string, ended: bool)
    ensures '\n' !in text && (if ended then s == text + (['\n'] + SkipLine(s)) else s == text && SkipLine(s) == "")
  {
    if s == "" {
      return "", false;
    }
    if s[0] == '\n' {
      assert s == "" + (['\n'] + s[1..]);
      return "", true;
    }
    text, ended := LineOf(s[1..]);
    assert s == [s[0]] + s[1..];
    text := [s[0]] + text;
  }

  lemma BlankBefore(b: Blank, bs: seq<Blank>, s: string)
    requires BlanksOk([b]) && BlanksOk(bs)
    ensures BlanksOk([b] + bs)
    ensures b.Space? ==> Blanks([b] + bs, s) == [b.c] + Blanks(bs, s)
    ensures b.Comment? ==> Blanks([b] + bs, s) == [';'] + (b.text + (['\n'] + Blanks(bs, s)))
  {
    assert ([b] + bs)[0] == b && ([b] + bs)[1..] == bs;
    assert [b][0] == b;
  }

  /** The blanks before the next token, and the comment that the text ends in. */
  lemma {:induction false} BlanksOf(s: string) returns (bs: seq<Blank>, comment: Option<string>)
    ensures BlanksOk(bs)
    ensures comment.None? ==> s == Blanks(bs, SkipSpace(s))
    ensures comment.Some? ==> SkipSpace(s) == "" && '\n' !in comment.value && s == Blanks(bs, [';'] + comment.value)
    decreases |s|
  {
    hide IsWhitespace, BlanksOk;
    assert BlanksOk([]) by { NoBlanks(); }
    if s == "" || (!IsWhitespace(s[0]) && s[0] != ';') {
      return [], None;
    }
    if IsWhitespace(s[0]) {
      bs, comment := BlanksOf(s[1..]);
      SpaceOk(s[0]);
      BlankBefore(Space(s[0]), bs, SkipSpace(s));
      if comment.Some? { BlankBefore(Space(s[0]), bs, [';'] + comment.value); }
      assert s == [s[0]] + s[1..];
      bs := [Space(s[0])] + bs;
    } else {
      var text, ended := LineOf(s[1..]);
      assert s == [';'] + s[1..];
      if !ended {
        assert Blanks([], s) == s;
        return [], Some(text);
      }
      var line := SkipLine(s[1..]);
      bs, comment := BlanksOf(line);
      CommentOk(text);
      BlankBefore(Comment(text), bs, SkipSpace(s));
      if comment.Some? { BlankBefore(Comment(text), bs, [';'] + comment.value); }
      bs := [Comment(text)] + bs;
    }
  }

  lemma NoBlanks()
    ensures BlanksOk([])
  {
  }

  lemma SpaceOk(c: char)
    requires IsWhitespace(c)
    ensures BlanksOk([Space(c)])
  {
  }

  lemma CommentOk(text: string)
    requires '\n' !in text
    ensures BlanksOk([Comment(text)])
  {
  }

  /** The digits at the front. */
  lemma {:induction false} DigitsOf(s: string) returns (digits: string)
    ensures |digits| <= |s| && digits == s[..|digits|]
    ensures HexDigits(digits) && NoDigit(s[|digits|..])
  {
    if s == "" || s[0] !in DIGITS {
      return "";
    }
    digits := DigitsOf(s[1..]);
    digits := [s[0]] + digits;
    assert s[|digits|..] == s[1..][|digits| - 1..];
  }

  /** A literal that is read is made of pieces. */
  lemma {:induction false} PiecesOf(s: string, res: string) returns (ps: seq<Piece>)
    requires ReadLiteral(s, res).Closed?
    ensures PiecesOk(ps, ReadLiteral(s, res).rest) && s == Pieces(ps, ReadLiteral(s, res).rest)
    ensures ReadLiteral(s, res).val == res + Meanings(ps)
    decreases |s|
  {
    hide Meaning, Meanings, Unescape, HexRead, FromCharCode, NoDigit, HexDigits;
    if s[0] == '"' {
      ps := [];
      assert s == ['"'] + s[1..];
      assert Meanings(ps) == "" by { NoMeanings(); }
    } else {
      var p, next := PieceOf(s, res);
      ps := PiecesOf(next, res + [Meaning(p)]);
      assert ([p] + ps)[1..] == ps;
      MeaningsCons([p] + ps, res);
      ps := [p] + ps;
    }
  }

  lemma NoMeanings()
    ensures Meanings([]) == ""
  {
  }

  predicate Before(p: Piece, next: string, s: string) {
    match p
    case Plain(c) => c != '"' && c != '\\' && s == [c] + next
    case Escaped(c) => c != 'x' && s == ['\\', c] + next
    case Code(digits) => HexDigits(digits) && NoDigit(next) && s == ['\\', 'x'] + (digits + next)
  }

  /** The first piece of a literal that does not close at once. */
  lemma PieceOf(s: string, res: string) returns (p: Piece, next: string)
    requires ReadLiteral(s, res).Closed? && s[0] != '"'
    ensures |next| < |s| && ReadLiteral(s, res) == ReadLiteral(next, res + [Meaning(p)])
    ensures Before(p, next, s)
  {
    if s[0] != '\\' {
      p, next := Plain(s[0]), s[1..];
      assert s == [s[0]] + next;
      PlainRead(s[0], next, res);
    } else if s[1] != 'x' {
      p, next := Escaped(s[1]), s[2..];
      assert s == ['\\', s[1]] + next;
      EscapedRead(s[1], next, res);
    } else {
      var digits := DigitsOf(s[2..]);
      p, next := Code(digits), s[2..][|digits|..];
      assert s[2..] == digits + next;
      assert s == ['\\', 'x'] + s[2..];
      CodeRead(digits, next, res);
    }
  }

  lemma BracketForm(c: char)
    ensures match Bracket(c)
            case Open(k) => Shape(k) && c == Opener(k)
            case Close(k) => Shape(k) && c == Closer(k)
            case _ => true
  {
  }

  lemma SharpForm(s: string)
    ensures var (token, rest) := Sharp(s); !token.Open? && !token.Close? && token != Quote && token != Dot && !token.Id? && !token.Num? && !token.Str? && token != Eof
    ensures var (token, rest) := Sharp(s); token.Truth? ==> Apart(rest) && s == [if token.b then 't' else 'f'] + rest
    ensures var (token, rest) := Sharp(s); token.UnspecifiedToken? ==> Apart(rest) && s == "unspecified" + rest
  {
    hide Ends, Apart, IsDigit;
    if s != "" {
      ApartIs(s[1..]);
      assert s == [s[0]] + s[1..];
      if |s| >= 11 {
        ApartIs(s[11..]);
        assert s == s[..11] + s[11..];
      }
    }
  }

  lemma NameForm(s: string)
    requires s != "" && IsIdChar(s[0]) && !(s[0] == '.' && |s| > 1 && IsWhitespace(s[1]))
    ensures NameFits(s[..IdLength(s)], s[IdLength(s)..])
  {
    hide IsIdChar, IsWhitespace;
    var n := IdLength(s);
    assert n > 0 && (s[..n] == "." ==> n == 1 && s[0] == '.');
    if n < |s| { assert s[n..][0] == s[n]; }
  }

  /** The form of the text, by its token. */
  ghost predicate Form(s: string, token: Token, rest: string) {
    match token
    case Eof => s == "" && rest == ""
    case Open(k) => Shape(k) && s == [Opener(k)] + rest
    case Close(k) => Shape(k) && s == [Closer(k)] + rest
    case Quote => s == ['\''] + rest
    case Dot => s == ['.'] + rest && rest != "" && IsWhitespace(rest[0])
    case Id(id) => s == id + rest && NameFits(id, rest) && !IsNumeric(id)
    case Num(id) => s == id + rest && NameFits(id, rest) && IsNumeric(id)
    case Str(val) => exists ps :: PiecesOk(ps, rest) && s == ['"'] + Pieces(ps, rest) && val == Meanings(ps)
    case Truth(b) => Apart(rest) && s == ['#', if b then 't' else 'f'] + rest
    case UnspecifiedToken => Apart(rest) && s == ['#'] + ("unspecified" + rest)
    case _ => true
  }

  lemma TokenForm(s: string)
    ensures Form(SkipSpace(s), NextToken(s).0, NextToken(s).1) && (NextToken(s).0 != Eof ==> SkipSpace(s) != "")
  {
    hide IsIdChar, IsWhitespace, IsNumeric, Bracket, Sharp, ReadLiteral, Pieces, PiecesOk, Meanings, Apart, NameFits, Opener, Closer, Shape;
    var w := SkipSpace(s);
    if w != "" {
      assert w == [w[0]] + w[1..];
      BracketForm(w[0]);
      if Bracket(w[0]) == Error {
        if w[0] == '#' {
          SharpForm(w[1..]);
          assert ['#'] + (['t'] + NextToken(s).1) == ['#', 't'] + NextToken(s).1;
          assert ['#'] + (['f'] + NextToken(s).1) == ['#', 'f'] + NextToken(s).1;
        } else if w[0] == '"' {
          if ReadLiteral(w[1..], "").Closed? {
            var ps := PiecesOf(w[1..], "");
            assert "" + Meanings(ps) == Meanings(ps);
          }
        } else if IsIdChar(w[0]) && !(w[0] == '.' && |w| > 1 && IsWhitespace(w[1])) && w[0] != '\'' {
          NameForm(w);
          assert w == w[..IdLength(w)] + w[IdLength(w)..];
        }
      }
    }
  }

  /** Whatever is read has a spelling. */
  lemma {:induction false} ReadFound(s: string) returns (sp: Spelling)
    requires Read(s).Done?
    ensures Fits(sp, Read(s).rest) && s == Spelt(sp, Read(s).rest) && Meant(sp) == Read(s).datum
    decreases |s|, 1
  {
    hide NextToken, ReadList, Blanks, BlanksOk, NameFits, PiecesOk, Pieces, Meanings, IsNumeric, Apart, Closer, Opener, Shape, SkipSpace;
    var bs, comment := BlanksOf(s);
    TokenForm(s);
    var (token, rest) := NextToken(s);
    match token
    case Eof =>
      sp := Nothing(bs, comment);
      assert comment.Some? ==> comment.value + rest == comment.value;
    case Open(k) =>
      var items := ItemsFound(rest, k);
      sp := Listed(bs, k, items);
    case Quote =>
      var sp' := ReadFound(rest);
      sp := Quoted(bs, sp');
    case Str(val) =>
      var ps :| PiecesOk(ps, rest) && SkipSpace(s) == ['"'] + Pieces(ps, rest) && val == Meanings(ps);
      sp := Literal(bs, ps);
    case Id(id) => sp := Name(bs, id);
    case Num(id) => sp := Name(bs, id);
    case Truth(b) => sp := Constant(bs, b);
    case UnspecifiedToken => sp := Unspecific(bs);
  }

  lemma {:induction false} ItemsFound(s: string, k: nat) returns (items: Spellings)
    requires ReadList(s, k).Done?
    ensures FitAll(items, ReadList(s, k).rest) && s == SpeltAll(items, ReadList(s, k).rest)
    ensures MeantAll(items) == ReadList(s, k).datum && ClosedBy(items) == k
    decreases |s|, 2
  {
    hide NextToken, Read, Blanks, BlanksOk, NameFits, Closer, Shape, SkipSpace, Spelt, Fits, Meant;
    var (token, rest) := NextToken(s);
    if token.Close? || token == Dot {
      var bs, comment := BlanksOf(s);
      TokenForm(s);
      if token.Close? {
        items := Closing(bs, k);
      } else {
        var sp := ReadFound(rest);
        var rest' := Read(rest).rest;
        var cs, comment' := BlanksOf(rest');
        TokenForm(rest');
        items := Dotted(bs, sp, cs, k);
      }
    } else {
      var sp := ReadFound(s);
      var items' := ItemsFound(Read(s).rest, k);
      items := Item(sp, items');
    }
  }

  /** The reader, without naming it: it gives a datum and a rest just if the text is a spelling of the datum that
      the rest does not run into. In every other case it fails. */
  lemma ReadIff(s: string, d: Datum, rest: string)
    ensures Read(s) == Done(d, rest) <==> exists sp :: Fits(sp, rest) && s == Spelt(sp, rest) && Meant(sp) == d
  {
    hide Read, Fits, Spelt, Meant;
    if Read(s) == Done(d, rest) {
      var sp := ReadFound(s);
    }
    forall sp | Fits(sp, rest) && s == Spelt(sp, rest) && Meant(sp) == d ensures Read(s) == Done(d, rest) {
      ReadSpelt(sp, rest);
    }
  }

  // ----- the text of a spelling, and what follows it

  lemma {:induction false} BlanksText(bs: seq<Blank>, s: string, tail: string)
    ensures Blanks(bs, s + tail) == Blanks(bs, s) + tail
  {
    if bs != [] { BlanksText(bs[1..], s, tail); }
  }

  lemma {:induction false} PiecesText(ps: seq<Piece>, tail: string)
    ensures Pieces(ps, tail) == Pieces(ps, "") + tail
  {
    if ps != [] { PiecesText(ps[1..], tail); }
  }

  /** The text of a spelling does not depend on what follows it. */
  lemma {:induction false} SpeltText(sp: Spelling, tail: string)
    ensures Spelt(sp, tail) == Spelt(sp, "") + tail
    decreases sp
  {
    hide Blanks, Pieces;
    match sp
    case Nothing(bs, comment) =>
      match comment {
        case None => BlanksText(bs, "", tail); assert "" + tail == tail;
        case Some(text) =>
          assert [';'] + (text + tail) == [';'] + (text + "") + tail;
          BlanksText(bs, [';'] + (text + ""), tail);
      }
    case Name(bs, id) =>
      assert id + tail == id + "" + tail;
      BlanksText(bs, id + "", tail);
    case Literal(bs, ps) =>
      PiecesText(ps, tail);
      assert ['"'] + Pieces(ps, tail) == ['"'] + Pieces(ps, "") + tail;
      BlanksText(bs, ['"'] + Pieces(ps, ""), tail);
    case Constant(bs, b) =>
      var c := ['#', if b then 't' else 'f'];
      assert c + tail == c + "" + tail;
      BlanksText(bs, c + "", tail);
    case Unspecific(bs) =>
      assert ['#'] + ("unspecified" + tail) == ['#'] + ("unspecified" + "") + tail;
      BlanksText(bs, ['#'] + ("unspecified" + ""), tail);
    case Quoted(bs, sp') =>
      SpeltText(sp', tail);
      assert ['\''] + Spelt(sp', tail) == ['\''] + Spelt(sp', "") + tail;
      BlanksText(bs, ['\''] + Spelt(sp', ""), tail);
    case Listed(bs, k, items) =>
      ItemsText(items, tail);
      assert [Opener(k)] + SpeltAll(items, tail) == [Opener(k)] + SpeltAll(items, "") + tail;
      BlanksText(bs, [Opener(k)] + SpeltAll(items, ""), tail);
  }

  lemma {:induction false} ItemsText(items: Spellings, tail: string)
    ensures SpeltAll(items, tail) == SpeltAll(items, "") + tail
    decreases items
  {
    hide Blanks, Spelt;
    match items
    case Closing(bs, k) =>
      assert [Closer(k)] + tail == [Closer(k)] + "" + tail;
      BlanksText(bs, [Closer(k)] + "", tail);
    case Dotted(bs, sp, cs, k) =>
      var close := Blanks(cs, [Closer(k)] + "");
      assert [Closer(k)] + tail == [Closer(k)] + "" + tail;
      BlanksText(cs, [Closer(k)] + "", tail);
      SpeltText(sp, close + tail);
      SpeltText(sp, close);
      assert ['.'] + (Spelt(sp, "") + (close + tail)) == ['.'] + (Spelt(sp, "") + close) + tail;
      BlanksText(bs, ['.'] + Spelt(sp, close), tail);
    case Item(sp, rest) =>
      ItemsText(rest, tail);
      SpeltText(sp, SpeltAll(rest, tail));
      SpeltText(sp, SpeltAll(rest, ""));
      assert Spelt(sp, "") + (SpeltAll(rest, "") + tail) == Spelt(sp, "") + SpeltAll(rest, "") + tail;
  }
}
