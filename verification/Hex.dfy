/** `toString` and `fromString` in radix 16. */
module HexStrings {
  import opened JsInt
  import opened Digits
  import opened BigIntegers
  import opened ByteArrays

  /** `intAt`: the value of a digit of any radix up to 36, or -1. */
  function IntAt(c: char): (r: int)
    ensures -1 <= r < 36
  {
    if '0' <= c <= '9' then (c - '0') as int
    else if 'a' <= c <= 'z' then 10 + (c - 'a') as int
    else if 'A' <= c <= 'Z' then 10 + (c - 'A') as int
    else -1
  }

  function Int2Char(n: int): (c: char)
    requires 0 <= n < 16
    ensures IntAt(c) == n && (c == '0' <==> n == 0) && c != '-'
    ensures c as int == n + (if n < 10 then '0' as int else 'a' as int - 10)
  {
    "0123456789abcdef"[n]
  }

  // ----- the number that a string stands for

  /** The digits from `i` on; what is no digit is passed over. */
  ghost function HexDigits(s: string, i: nat): nat
    decreases |s| - i
  {
    if i >= |s| then 0 else (if IntAt(s[i]) < 0 then 0 else 1) + HexDigits(s, i + 1)
  }

  ghost function HexNumber(s: string, i: nat): nat
    decreases |s| - i
  {
    if i >= |s| then 0
    else if IntAt(s[i]) < 0 then HexNumber(s, i + 1)
    else IntAt(s[i]) * Pow2(4 * HexDigits(s, i + 1)) + HexNumber(s, i + 1)
  }

  /** A minus sign stands before the first digit. */
  ghost predicate Negative(s: string, i: nat)
    decreases |s| - i
  {
    i < |s| && IntAt(s[i]) < 0 && (s[i] == '-' || Negative(s, i + 1))
  }

  ghost function HexValue(s: string): int {
    if Negative(s, 0) then 0 - HexNumber(s, 0) else HexNumber(s, 0)
  }

  /** No digit of a higher radix. */
  predicate IsHex(s: string) {
    forall k :: 0 <= k < |s| ==> IntAt(s[k]) < 16
  }

  /** `fromString` in radix 16. */
  method FromHex(self: BigInteger, s: string)
    requires IsHex(s)
    modifies self
    ensures self.Valid() && self.Value() == HexValue(s)
  {
    self.t, self.s := 0, 0;
    var i, mi, sh := |s|, false, 0;
    while i > 0
      invariant 0 <= i <= |s| && mi == Negative(s, i) && Reading(self, sh, 4 * HexDigits(s, i), HexNumber(s, i))
    {
      i := i - 1;
      var x := IntAt(s[i]);
      if x < 0 {
        if s[i] == '-' {
          mi := true;
        }
      } else {
        mi := false;
        assert Pow2(4) == 16;
        sh := AddDigit(self, x, 4, sh, 4 * HexDigits(s, i + 1), HexNumber(s, i + 1));
      }
    }
    self.Clamp();
    if mi {
      var zero := new BigInteger();
      zero.SubTo(self, self);
    }
  }

  // ----- writing

  /** Lower-case digits without a leading zero. */
  predicate Plain(r: string) {
    (forall k :: 0 <= k < |r| ==> 0 <= IntAt(r[k]) < 16 && ('0' <= r[k] <= '9' || 'a' <= r[k] <= 'f')) &&
    (r != "" ==> r[0] != '0')
  }

  lemma {:induction false} HexSnoc(r: string, c: char, i: nat)
    requires i <= |r| && (forall k :: 0 <= k < |r| ==> IntAt(r[k]) >= 0) && IntAt(c) >= 0
    ensures HexDigits(r + [c], i) == |r| - i + 1 && HexDigits(r, i) == |r| - i
    ensures HexNumber(r + [c], i) == HexNumber(r, i) * 16 + IntAt(c)
    decreases |r| - i
  {
    hide IntAt;
    if i < |r| {
      HexSnoc(r, c, i + 1);
      var q := Pow2(4 * (|r| - 1 - i));
      Pow2Add(4, 4 * (|r| - 1 - i));
      assert Pow2(4) == 16;
      MulAssoc(IntAt(r[i]), q, 16);
      assert Pow2(4 * (|r| - i)) == 16 * q;
    } else {
      assert HexNumber(r + [c], i + 1) == 0 && HexDigits(r + [c], i + 1) == 0;
    }
  }

  lemma NibbleWithin(a: seq<int>, t: nat, s: int, i: nat, p: nat)
    requires IsDigits(a, 0, t) && i < t && BytePlace(p)
    ensures (if p == 4 then TopBits(a, t, s, i - 1, DB) else TopBits(a, t, s, i, p - 4))
         == TopBits(a, t, s, i, p) * 16 + a[i] / Pow2(p - 4) % 16
  {
    PlacePowers();
    var w := V(a, i + 1, t, s);
    assert V(a, i, t, s) == a[i] + DV * w;
    NibbleOf(a[i], w, Pow2(p - 4), DV / (16 * Pow2(p - 4)));
    assert p == 28 ==> (a[i] + DV * w) / DV == w;
  }

  lemma NibbleOf(a: int, w: int, q: int, f: int)
    requires q > 0 && 16 * q * f == DV
    ensures (a + DV * w) / q == (a + DV * w) / (16 * q) * 16 + a / q % 16
  {
    QuotientOf(a, w, q, 16 * f);
    QuotientOf(a, w, 16 * q, f);
    DivTwice(a, q, 16);
    assert 16 * f * w == 16 * (f * w);
  }

  method NextNibble(self: BigInteger, i: nat, p: nat) returns (d: int, i': int, p': nat)
    requires self.WF() && i < self.t && BytePlace(p)
    ensures 0 <= d < 16 && BytePlace(p') && if p == 4 then i' == i - 1 && p' == DB else i' == i && p' == p - 4
    ensures TopBits(self.digits, self.t, self.s, i', p') == TopBits(self.digits, self.t, self.s, i, p) * 16 + d
  {
    PlacePowers();
    NibbleWithin(self.digits, self.t, self.s, i, p);
    d := Low(Shr(self.digits[i], Pow2(p - 4)), 16);
    i', p' := i, p - 4;
    if p' <= 0 {
      i', p' := i - 1, p' + DB;
    }
  }

  /** A digit more, or nothing for a leading zero. */
  function WriteNibble(r: string, d: int): string
    requires 0 <= d < 16
  {
    if r != "" || d > 0 then r + [Int2Char(d)] else r
  }

  lemma WriteNibbleStep(r: string, d: int)
    requires 0 <= d < 16 && Plain(r)
    ensures Plain(WriteNibble(r, d)) && HexNumber(WriteNibble(r, d), 0) == HexNumber(r, 0) * 16 + d
  {
    hide IntAt, Int2Char;
    HexSnoc(r, Int2Char(d), 0);
  }

  /** `toString` in radix 16 of a number that is not negative. */
  method ToHexNatural(self: BigInteger) returns (r: string)
    requires self.Valid() && self.s == 0
    ensures r != "" && HexNumber(r, 0) == self.Value() && forall k :: 0 <= k < |r| ==> 0 <= IntAt(r[k]) < 16
    ensures r == "0" || r[0] != '0'
  {
    hide IntAt, Int2Char, WriteNibble, TopBits, HexNumber, V;
    r := "";
    var i: int, p: nat := self.t - 1, DB;
    NoBits(self.digits, self.t);
    while i >= 0
      invariant -1 <= i < self.t && BytePlace(p) && (i == -1 ==> p == DB)
      invariant Plain(r) && HexNumber(r, 0) == TopBits(self.digits, self.t, self.s, i, p)
      decreases i, p
    {
      var d;
      d, i, p := NextNibble(self, i, p);
      WriteNibbleStep(r, d);
      r := WriteNibble(r, d);
    }
    AllBits(self.digits, self.t, self.s);
    if r == "" {
      r := "0";
    }
  }

  lemma NoBits(a: seq<int>, t: nat)
    requires t <= |a|
    ensures TopBits(a, t, 0, t - 1, DB) == 0 && HexNumber("", 0) == 0 && HexNumber("0", 0) == 0 && 0 <= IntAt('0') < 16
  {
    assert HexNumber("0", 1) == 0;
  }

  /** `toString` in radix 16: reading it gives the number. */
  method ToHex(self: BigInteger) returns (r: string)
    requires self.Valid()
    ensures r != "" && IsHex(r) && HexValue(r) == self.Value()
    ensures self.s == 0 ==> forall k :: 0 <= k < |r| ==> 0 <= IntAt(r[k]) < 16
  {
    if self.s < 0 {
      var n := self.Negate();
      VFits(self.digits, 0, self.t, self.s);
      VFits(n.digits, 0, n.t, n.s);
      var h := ToHexNatural(n);
      r := "-" + h;
      MinusHex(h);
    } else {
      r := ToHexNatural(self);
    }
  }

  lemma MinusHex(h: string)
    requires forall k :: 0 <= k < |h| ==> IntAt(h[k]) >= 0
    ensures HexValue("-" + h) == 0 - HexNumber(h, 0)
  {
    HexShift(h, "-" + h, 0);
  }

  lemma {:induction false} HexShift(h: string, g: string, i: nat)
    requires |g| == |h| + 1 && i <= |h| && forall k :: 0 <= k < |h| ==> g[k + 1] == h[k]
    ensures HexDigits(g, i + 1) == HexDigits(h, i) && HexNumber(g, i + 1) == HexNumber(h, i)
    decreases |h| - i
  {
    if i < |h| { HexShift(h, g, i + 1); }
  }
}
