/** Numbers from digits of a power-of-two radix and back: `fromString` and `toByteArray` for bytes. */
module ByteArrays {
  import opened JsInt
  import opened Digits
  import opened BigIntegers

  // ----- reading digits of `k` bits, the lowest one first

  /** How many bits `t` words hold when the top one is filled up to bit `sh`; a full word has `sh == 0`. */
  function Bits(t: nat, sh: nat): int {
    if sh == 0 then DB * t else DB * (t - 1) + sh
  }

  /** The words hold the number `x` in as many bits as were read. */
  ghost predicate Reading(self: BigInteger, sh: nat, n: nat, x: int)
    reads self
  {
    self.WF() && self.s == 0 && sh < DB && (sh > 0 ==> self.t > 0 && self.digits[self.t - 1] < Pow2(sh)) &&
    n == Bits(self.t, sh) && self.Value() == x
  }

  /** The words below the top one weigh nothing more than before when the top one grows by `y`. */
  lemma TopGrows(a: seq<int>, t: nat, y: int)
    requires 0 < t <= |a|
    ensures V(a[t - 1 := a[t - 1] + y], 0, t, 0) == V(a, 0, t, 0) + P(t - 1) * y
  {
    var b := a[t - 1 := a[t - 1] + y];
    VSnoc(a, a, 0, t - 1, 0);
    VSnoc(a, b, 0, t - 1, 0);
    VTop(a, 0, t - 1, a[t - 1]);
    VTop(a, 0, t - 1, b[t - 1]);
    Distributes(P(t - 1), a[t - 1], y);
  }

  lemma Distributes(p: int, x: int, y: int)
    ensures p * (x + y) == p * x + p * y
  {}

  lemma WordGrows(a: seq<int>, b: seq<int>, t: nat, y: int)
    requires t <= |a| && t < |b| && b[t] == y && forall k :: 0 <= k < t ==> a[k] == b[k]
    ensures V(b, 0, t + 1, 0) == V(a, 0, t, 0) + P(t) * y
  {
    VSnoc(a, b, 0, t, 0);
    VTop(a, 0, t, y);
  }

  lemma PowBits(t: nat, sh: nat)
    requires t > 0 || sh == 0
    ensures Bits(t, sh) >= 0 && Pow2(Bits(t, sh)) == if sh == 0 then P(t) else P(t - 1) * Pow2(sh)
  {
    if sh == 0 {
      PowDigits(t);
    } else {
      PowDigits(t - 1);
      Pow2Add(DB * (t - 1), sh);
    }
  }

  /** A digit that goes into the top word as a whole. */
  lemma FitsAbove(lo: int, x: int, sh: nat, k: nat)
    requires 0 <= lo < Pow2(sh) && 0 <= x < Pow2(k) && sh + k <= DB
    ensures 0 <= x * Pow2(sh) && lo + x * Pow2(sh) < Pow2(sh + k) <= DV
  {
    Pow2Add(sh, k);
    Pow2Monotone(sh + k, DB);
    PowDB();
    Below(lo, x, Pow2(sh), Pow2(k));
  }

  lemma Below(lo: int, x: int, b: int, e: int)
    requires 0 <= lo < b && 0 <= x < e
    ensures 0 <= x * b && lo + x * b < b * e
  {
    MulAtLeast(b, e - 1, x);
    MulAtLeast(b, x, 0);
    assert b * (e - 1) == b * e - b;
  }

  /** The part of a digit that still goes into the top word, and the rest. */
  lemma Straddles(lo: int, x: int, b: int, c: int, e: int)
    requires 0 <= lo < b && c > 0 && b * c == DV && 0 <= x < c * e
    ensures x % c * b + DV * (x / c) == x * b && lo + x % c * b < DV && 0 <= x % c * b && 0 <= x / c < e
  {
    StraddleParts(lo, x, b, c, e, x / c, x % c);
  }

  lemma StraddleParts(lo: int, x: int, b: int, c: int, e: int, q: int, m: int)
    requires 0 <= lo < b && c > 0 && b * c == DV && 0 <= x < c * e && x == c * q + m && 0 <= m < c
    ensures m * b + DV * q == x * b && lo + m * b < DV && 0 <= m * b && 0 <= q < e
  {
    assert x * b == (c * q) * b + m * b;
    assert (c * q) * b == (b * c) * q;
    MulAtLeast(b, c - 1, m);
    MulAtLeast(b, m, 0);
    assert b * (c - 1) == b * c - b;
    if q >= e { MulAtLeast(c, q, e); }
    if q < 0 { MulAtLeast(c, -1, q); }
  }

  lemma Crossing(p: int, p': int, x: int, b: int, m: int, q: int)
    requires p' == DV * p && m * b + DV * q == x * b
    ensures p * (m * b) + p' * q == x * (p * b)
  {
    assert p' * q == p * (DV * q);
    assert p * (m * b) + p * (DV * q) == p * (x * b);
    assert p * (x * b) == x * (p * b);
  }

  /** A new top word. */
  method PushWord(self: BigInteger, x: int)
    requires self.WF() && self.s == 0 && 0 <= x < DV
    modifies self`digits, self`t
    ensures self.WF() && self.t == old(self.t) + 1 && self.digits[self.t - 1] == x
    ensures self.Value() == old(self.Value()) + P(old(self.t)) * x
  {
    ghost var D := self.digits;
    self.digits := Put(self.digits, self.t, x);
    self.t := self.t + 1;
    WordGrows(D, self.digits, self.t - 1, x);
  }

  /** Set bits of the top word from bit `sh` on. */
  method OrTop(self: BigInteger, y: int, sh: nat)
    requires self.WF() && self.s == 0 && self.t > 0 && 0 <= y && self.digits[self.t - 1] < Pow2(sh)
    requires self.digits[self.t - 1] + y * Pow2(sh) < DV
    modifies self`digits
    ensures self.WF() && self.digits[self.t - 1] == old(self.digits)[self.t - 1] + y * Pow2(sh)
    ensures self.Value() == old(self.Value()) + P(self.t - 1) * (y * Pow2(sh))
  {
    var lo := self.digits[self.t - 1];
    MulAtLeast(Pow2(sh), y, 0);
    OrDisjoint(lo, y, sh);
    TopGrows(self.digits, self.t, y * Pow2(sh));
    self.digits := self.digits[self.t - 1 := Or(lo, Shl(y, Pow2(sh)))];
  }

  /** A digit that begins a new word. */
  method AddInNew(self: BigInteger, x: int, k: nat, ghost n: nat, ghost X: int)
    requires Reading(self, 0, n, X) && 0 < k <= 8 && 0 <= x < Pow2(k)
    modifies self`digits, self`t
    ensures Reading(self, k, n + k, X + x * Pow2(n))
  {
    PowBits(self.t, 0);
    PowDB();
    Pow2Monotone(k, DB);
    hide Pow2, P, V;
    PushWord(self, x);
  }

  /** A digit that fills the top word and begins another one. */
  method AddAcross(self: BigInteger, x: int, k: nat, sh: nat, ghost n: nat, ghost X: int)
    requires Reading(self, sh, n, X) && 0 < k <= 8 && 0 <= x < Pow2(k) && 0 < sh && DB < sh + k
    modifies self`digits, self`t
    ensures Reading(self, sh + k - DB, n + k, X + x * Pow2(n))
  {
    hide Pow2, P, V;
    var c := Pow2(DB - sh);
    ghost var p, b := P(self.t - 1), Pow2(sh);
    AcrossFacts(self.digits[self.t - 1], x, k, sh);
    PowBits(self.t, sh);
    PNext(self.t);
    OrTop(self, Low(x, c), sh);
    PushWord(self, Shr(x, c));
    Crossing(p, DV * p, x, b, x % c, x / c);
  }

  lemma AcrossFacts(lo: int, x: int, k: nat, sh: nat)
    requires 0 <= lo < Pow2(sh) && 0 <= x < Pow2(k) && 0 < sh < DB < sh + k && k <= 8
    ensures var b, c := Pow2(sh), Pow2(DB - sh);
      c > 0 && x < DV && x % c * b + DV * (x / c) == x * b && lo + x % c * b < DV && 0 <= x % c && 0 <= x / c < Pow2(sh + k - DB) <= DV
  {
    PowDB();
    Pow2Monotone(k, DB);
    PowSplit(sh);
    Pow2Add(DB - sh, sh + k - DB);
    Pow2Monotone(sh + k - DB, DB);
    hide Pow2;
    Straddles(lo, x, Pow2(sh), Pow2(DB - sh), Pow2(sh + k - DB));
  }

  /** A digit that fits into the top word. */
  method AddInTop(self: BigInteger, x: int, k: nat, sh: nat, ghost n: nat, ghost X: int)
    requires Reading(self, sh, n, X) && 0 < k <= 8 && 0 <= x < Pow2(k) && 0 < sh && sh + k <= DB
    modifies self`digits, self`t
    ensures Reading(self, if sh + k == DB then 0 else sh + k, n + k, X + x * Pow2(n))
  {
    hide Pow2, P, V;
    ghost var p, b := P(self.t - 1), Pow2(sh);
    PowBits(self.t, sh);
    FitsAbove(self.digits[self.t - 1], x, sh, k);
    OrTop(self, x, sh);
    Crossing(p, DV * p, x, b, x, 0);
  }

  /** The body of the loop in `fromString`: the digit `x` of `k` bits goes above the bits read. */
  method AddDigit(self: BigInteger, x: int, k: nat, sh: nat, ghost n: nat, ghost X: int) returns (sh': nat)
    requires Reading(self, sh, n, X) && 0 < k <= 8 && 0 <= x < Pow2(k)
    modifies self`digits, self`t
    ensures Reading(self, sh', n + k, X + x * Pow2(n))
  {
    ghost var X' := X + x * Pow2(n);
    if sh == 0 {
      AddInNew(self, x, k, n, X);
    } else if sh + k > DB {
      AddAcross(self, x, k, sh, n, X);
    } else {
      AddInTop(self, x, k, sh, n, X);
    }
    sh' := sh + k;
    if sh' >= DB {
      sh' := sh' - DB;
    }
  }

  lemma PNext(t: nat)
    requires t > 0
    ensures P(t) == DV * P(t - 1)
  {}

  // ----- bytes, the highest one first, in two's complement

  /** The bytes from `i` on as a number; of each entry the low eight bits count. */
  ghost function Unsigned(b: seq<int>, i: nat): nat
    decreases |b| - i
  {
    if i >= |b| then 0 else b[i] % 0x100 * Pow2(8 * (|b| - 1 - i)) + Unsigned(b, i + 1)
  }

  predicate TopBit(b: seq<int>) {
    b != [] && b[0] % 0x100 >= 0x80
  }

  ghost function TwosComplement(b: seq<int>): int {
    Unsigned(b, 0) - if TopBit(b) then Pow2(8 * |b|) else 0
  }

  /** Set the bits above the ones read: the number becomes negative. */
  method SetSign(self: BigInteger, sh: nat, ghost n: nat, ghost X: int)
    requires Reading(self, sh, n, X)
    modifies self`digits, self`s
    ensures self.WF() && self.Value() == X - Pow2(n)
  {
    hide Pow2, P, V;
    PowBits(self.t, sh);
    if sh > 0 {
      PowSplit(sh);
      ghost var p, b := P(self.t - 1), Pow2(sh);
      Ones(b, Pow2(DB - sh), p);
      PNext(self.t);
      OrTop(self, Pow2(DB - sh) - 1, sh);
    }
    VTop(self.digits, 0, self.t, -1);
    self.s := -1;
  }

  lemma Ones(b: int, c: int, p: int)
    requires b * c == DV
    ensures (c - 1) * b == DV - b && p * ((c - 1) * b) == DV * p - p * b
  {
  }

  /** `fromString` of a byte array. */
  method FromBytes(self: BigInteger, b: seq<int>)
    modifies self
    ensures self.Valid() && self.Value() == TwosComplement(b)
  {
    self.t, self.s := 0, 0;
    var i, sh := |b|, 0;
    while i > 0
      invariant 0 <= i <= |b| && Reading(self, sh, 8 * (|b| - i), Unsigned(b, i))
    {
      i := i - 1;
      ghost var n := 8 * (|b| - 1 - i);
      assert Pow2(8) == 0x100;
      sh := AddDigit(self, Low(b[i], 0x100), 8, sh, n, Unsigned(b, i + 1));
    }
    if TopBit(b) {
      SetSign(self, sh, 8 * |b|, Unsigned(b, 0));
    }
    self.Clamp();
  }

  // ----- writing bytes

  predicate IsBytes(r: seq<int>) {
    forall k :: 0 <= k < |r| ==> -0x80 <= r[k] < 0x80
  }

  /** The first byte is not just a copy of the sign. */
  predicate Minimal(r: seq<int>) {
    |r| > 1 ==> !(r[0] == 0 && r[1] >= 0) && !(r[0] == -1 && r[1] < 0)
  }

  /** The number that bytes stand for, one byte after the other from the highest. */
  ghost function SignedValue(r: seq<int>): int {
    if r == [] then 0 else if |r| == 1 then r[0] else SignedValue(r[..|r| - 1]) * 0x100 + r[|r| - 1] % 0x100
  }

  lemma {:induction false} UnsignedSnoc(b: seq<int>, x: int, i: nat)
    requires i <= |b|
    ensures Unsigned(b + [x], i) == Unsigned(b, i) * 0x100 + x % 0x100
    decreases |b| - i
  {
    if i < |b| {
      UnsignedSnoc(b, x, i + 1);
      Pow2Add(8, 8 * (|b| - 1 - i));
      assert Pow2(8) == 0x100;
      MulAssoc(b[i] % 0x100, Pow2(8 * (|b| - 1 - i)), 0x100);
    } else {
      assert Unsigned(b + [x], i + 1) == 0;
    }
  }

  lemma {:induction false} SignedIs(r: seq<int>)
    requires IsBytes(r)
    ensures SignedValue(r) == TwosComplement(r)
  {
    assert Pow2(8) == 0x100 && Pow2(0) == 1;
    if |r| == 1 {
      assert Unsigned(r, 1) == 0;
    } else if |r| > 1 {
      var r', x := r[..|r| - 1], r[|r| - 1];
      SignedIs(r');
      assert r == r' + [x];
      TwosComplementSnoc(r', x);
    }
  }

  lemma TwosComplementSnoc(b: seq<int>, x: int)
    requires b != []
    ensures TwosComplement(b + [x]) == TwosComplement(b) * 0x100 + x % 0x100
  {
    UnsignedSnoc(b, x, 0);
    Pow2Add(8, 8 * |b|);
    assert Pow2(8) == 0x100;
  }

  /** The sign, or the bytes written for the upper bits `top` of a number. */
  ghost predicate Written(r: seq<int>, k: nat, s: int, top: int) {
    if k == 0 then r == [s] && top == s
    else |r| == k && IsBytes(r) && SignedValue(r) == top && Minimal(r) && (k == 1 ==> r[0] != 0 && r[0] != -1)
  }

  function AsSigned(d: int): int
    requires 0 <= d < 0x100
  {
    if d >= 0x80 then d - 0x100 else d
  }

  /** Append a byte, unless it only repeats the sign at the front. */
  function WriteByte(r: seq<int>, k: nat, s: int, d: int): (seq<int>, nat)
    requires 0 <= d < 0x100
  {
    var e := AsSigned(d);
    var k' := if k == 0 && (s < 0) != (d >= 0x80) then 1 else k;
    if k' > 0 || e != s then (Put(r, k', e), k' + 1) else (r, k')
  }

  lemma WriteByteStep(r: seq<int>, k: nat, s: int, top: int, d: int)
    requires Written(r, k, s, top) && (s == 0 || s == -1) && 0 <= d < 0x100
    ensures var w := WriteByte(r, k, s, d); Written(w.0, w.1, s, top * 0x100 + d)
  {
    var w := WriteByte(r, k, s, d);
    if w.1 > 1 {
      assert w.0[..|w.0| - 1] == if k == 0 then [s] else r;
    }
  }

  /** The bits of a number above word `i`, or above bit `p` of word `i`. */
  ghost function TopBits(a: seq<int>, t: nat, s: int, i: int, p: nat): int
    requires t <= |a| && -1 <= i && (p == DB || 0 <= i)
  {
    if p == DB then V(a, i + 1, t, s) else V(a, i, t, s) / Pow2(p)
  }

  predicate BytePlace(p: nat) {
    p == 4 || p == 8 || p == 12 || p == 16 || p == 20 || p == 24 || p == 28
  }

  lemma PlacePowers()
    ensures Pow2(0) == 1 && Pow2(4) == 0x10 && Pow2(8) == 0x100 && Pow2(12) == 0x1000 && Pow2(16) == 0x1_0000
    ensures Pow2(20) == 0x10_0000 && Pow2(24) == 0x100_0000
  {
    Pow2Four();
    Pow2Add(4, 4);
    Pow2Add(8, 4);
    Pow2Add(8, 8);
    Pow2Add(16, 4);
    Pow2Add(16, 8);
    hide Pow2;
  }

  lemma Pow2Four()
    ensures Pow2(0) == 1 && Pow2(4) == 0x10
  {
  }

  lemma ByteOf(a: int, w: int, q: int, f: int)
    requires q > 0 && 0x100 * q * f == DV
    ensures (a + DV * w) / q == (a + DV * w) / (0x100 * q) * 0x100 + a / q % 0x100
  {
    QuotientOf(a, w, q, 0x100 * f);
    QuotientOf(a, w, 0x100 * q, f);
    DivTwice(a, q, 0x100);
    assert 0x100 * f * w == 0x100 * (f * w);
  }

  lemma QuotientOf(a: int, w: int, q: int, e: int)
    requires q > 0 && q * e == DV
    ensures (a + DV * w) / q == a / q + e * w
  {
    assert DV * w == q * (e * w);
    assert q * (a / q + e * w) == q * (a / q) + q * (e * w);
    DivUnique(a + DV * w, q, a / q + e * w, a % q);
  }

  /** The next byte of a word. */
  lemma ByteWithin(a: seq<int>, t: nat, s: int, i: nat, p: nat)
    requires IsDigits(a, 0, t) && i < t && BytePlace(p) && p >= 8
    ensures (if p == 8 then TopBits(a, t, s, i - 1, DB) else TopBits(a, t, s, i, p - 8))
         == TopBits(a, t, s, i, p) * 0x100 + a[i] / Pow2(p - 8) % 0x100
  {
    PlacePowers();
    var w := V(a, i + 1, t, s);
    assert V(a, i, t, s) == a[i] + DV * w;
    ByteOf(a[i], w, Pow2(p - 8), DV / (0x100 * Pow2(p - 8)));
    assert p == 28 ==> (a[i] + DV * w) / DV == w;
  }

  /** The next byte across two words. */
  lemma ByteAcross(a: seq<int>, t: nat, s: int, i: nat)
    requires IsDigits(a, 0, t) && 0 < i < t
    ensures TopBits(a, t, s, i - 1, 24) == TopBits(a, t, s, i, 4) * 0x100 + (a[i] % 0x10 * 0x10 + a[i - 1] / 0x100_0000)
  {
    PlacePowers();
    var w := V(a, i + 1, t, s);
    assert V(a, i - 1, t, s) == a[i - 1] + DV * (a[i] + DV * w);
  }

  /** The next byte and where the one after it begins. */
  method NextByte(self: BigInteger, i: nat, p: nat) returns (d: int, i': int, p': nat)
    requires self.WF() && i < self.t && BytePlace(p) && (p == 4 ==> i > 0)
    ensures 0 <= d < 0x100 && -1 <= i' <= i && BytePlace(p') && (i' == -1 ==> p' == DB)
    ensures TopBits(self.digits, self.t, self.s, i', p') == TopBits(self.digits, self.t, self.s, i, p) * 0x100 + d
    ensures p == 4 ==> i' == i - 1 && p' == 24
    ensures p > 4 ==> if p == 8 then i' == i - 1 && p' == DB else i' == i && p' == p - 8
  {
    PlacePowers();
    if p < 8 {
      ByteAcross(self.digits, self.t, self.s, i);
      var hi, lo := Low(self.digits[i], Pow2(p)), Shr(self.digits[i - 1], Pow2(p + DB - 8));
      OrDisjoint(lo, hi, 4);
      d := Or(lo, Shl(hi, Pow2(8 - p)));
      i', p' := i - 1, p + DB - 8;
    } else {
      ByteWithin(self.digits, self.t, self.s, i, p);
      d := Low(Shr(self.digits[i], Pow2(p - 8)), 0x100);
      i', p' := i, p - 8;
      if p' <= 0 {
        i', p' := i - 1, p' + DB;
      }
    }
  }

  /** The nibble above the whole bytes of an odd number of words. */
  lemma TopNibble(a: seq<int>, t: nat, s: int)
    requires 0 < t && IsDigits(a, 0, t) && (s == 0 || s == -1)
    ensures TopBits(a, t, s, t - 1, 24) == a[t - 1] / 0x100_0000 + 0x10 * s
  {
    PlacePowers();
    assert V(a, t, t, s) == s && V(a, t - 1, t, s) == a[t - 1] + DV * s;
  }

  /** The position is a whole number of bytes above the lowest bit. */
  predicate Aligned(i: int, p: nat) {
    if i % 2 == 0 then p == 24 || p == 16 || p == 8 else p == 28 || p == 20 || p == 12 || p == 4
  }

  /** Where the whole bytes of `t` words begin. */
  function FirstPlace(t: nat): (p: nat)
    ensures (p == DB || p == 24) && (t > 0 ==> Aligned(t - 1, p))
  {
    assert t == t / 2 * 2 + t % 2;
    DB - t * DB % 8
  }

  /** The bits above the whole bytes. */
  method WriteTop(self: BigInteger, p: nat) returns (r: seq<int>, k: nat)
    requires self.WF() && self.t > 0 && (p == DB || p == 24)
    ensures Written(r, k, self.s, TopBits(self.digits, self.t, self.s, self.t - 1, p))
  {
    PlacePowers();
    hide Pow2;
    var i := self.t - 1;
    r, k := [self.s], 0;
    TopNibble(self.digits, self.t, self.s);
    assert V(self.digits, self.t, self.t, self.s) == self.s;
    if p < DB && Shr(self.digits[i], Pow2(24)) != Shr(Low(self.s, DV), Pow2(24)) {
      r, k := [Shr(self.digits[i], Pow2(24)) + Shl(self.s, Pow2(4))], 1;
    }
  }

  /** `toByteArray`: signed bytes, the highest one first and no more than needed. */
  method ToByteArray(self: BigInteger) returns (r: seq<int>)
    requires self.WF()
    ensures r != [] && IsBytes(r) && Minimal(r) && TwosComplement(r) == self.Value()
  {
    hide TwosComplement, TopBits, FirstPlace, Aligned;
    r := [self.s];
    var p, k := FirstPlace(self.t), 0;
    if self.t > 0 {
      r, k := WriteTop(self, p);
      r, k := WriteBytes(self, self.t - 1, p, r, k);
    }
    SignedIs(r);
  }

  method WriteBytes(self: BigInteger, i0: int, p0: nat, r0: seq<int>, k0: nat) returns (r: seq<int>, k: nat)
    requires self.WF() && 0 <= i0 < self.t && Aligned(i0, p0) && Written(r0, k0, self.s, TopBits(self.digits, self.t, self.s, i0, p0))
    ensures Written(r, k, self.s, self.Value())
  {
    hide Written, WriteByte, TopBits;
    var i, p := i0, p0;
    r, k := r0, k0;
    while i >= 0
      invariant -1 <= i < self.t && Aligned(i, p) && (i == -1 ==> p == DB)
      invariant Written(r, k, self.s, TopBits(self.digits, self.t, self.s, i, p))
      decreases i, p
    {
      ghost var top := TopBits(self.digits, self.t, self.s, i, p);
      var d;
      d, i, p := NextByte(self, i, p);
      WriteByteStep(r, k, self.s, top, d);
      var w := WriteByte(r, k, self.s, d);
      r, k := w.0, w.1;
    }
    AllBits(self.digits, self.t, self.s);
  }

  lemma AllBits(a: seq<int>, t: nat, s: int)
    requires t <= |a|
    ensures TopBits(a, t, s, -1, DB) == V(a, 0, t, s)
  {
  }

  // ----- what the bytes of a number are

  /** Minimal bytes are determined by the number. */
  lemma {:induction false} SameBytes(r: seq<int>, r': seq<int>)
    requires r != [] && r' != [] && IsBytes(r) && IsBytes(r') && Minimal(r) && Minimal(r') && SignedValue(r) == SignedValue(r')
    ensures r == r'
    decreases |r|
  {
    if |r| == 1 && |r'| == 1 {
    } else if |r| == 1 {
      OneByte(r', r[0]);
    } else if |r'| == 1 {
      OneByte(r, r'[0]);
    } else {
      var m, m' := r[..|r| - 1], r'[..|r'| - 1];
      LastByte(SignedValue(m), r[|r| - 1], SignedValue(m'), r'[|r'| - 1]);
      SameBytes(m, m');
      assert r == m + [r[|r| - 1]] && r' == m' + [r'[|r'| - 1]];
    }
  }

  lemma LastByte(v: int, x: int, v': int, x': int)
    requires v * 0x100 + x % 0x100 == v' * 0x100 + x' % 0x100 && -0x80 <= x < 0x80 && -0x80 <= x' < 0x80
    ensures v == v' && x == x'
  {
  }

  /** Two or more minimal bytes do not make a number of one byte. */
  lemma {:induction false} OneByte(r: seq<int>, x: int)
    requires |r| > 1 && IsBytes(r) && Minimal(r) && -0x80 <= x < 0x80
    ensures SignedValue(r) != x
  {
    var m := r[..|r| - 1];
    if |r| > 2 {
      OneByte(m, 0);
      OneByte(m, -1);
    }
  }
}
