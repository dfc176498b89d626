/** PKCS #1 type 2 padding, and encryption and decryption of texts. */
module Pkcs {
  import opened Common
  import opened JsInt
  import opened Digits
  import opened BigIntegers
  import opened ByteArrays
  import opened HexStrings
  import opened Modular
  import opened Exponentiation
  import opened Rsa

  /** A text is a sequence of 16-bit code units. */
  predicate IsText(s: seq<int>) {
    forall k :: 0 <= k < |s| ==> 0 <= s[k] < 0x1_0000
  }

  predicate NonZero(ps: seq<int>) {
    forall k :: 0 <= k < |ps| ==> ps[k] != 0
  }

  predicate PadBytes(ps: seq<int>) {
    forall k :: 0 <= k < |ps| ==> 0 < ps[k] < 0x100
  }

  /** The encoded message without its leading zero byte. */
  function Message(ps: seq<int>, s: seq<int>): seq<int> {
    [2] + ps + [0] + s
  }

  // ----- padding

  /** The text at the end of the array, from its last unit back. */
  method PutText(ba: array<int>, s: seq<int>) returns (n: nat)
    requires |s| <= ba.Length
    modifies ba
    ensures n == ba.Length - |s| && ba[n..] == s
  {
    n := ba.Length;
    var i := |s|;
    while i > 0 && n > 0
      invariant 0 <= i <= |s| && n == ba.Length - |s| + i && ba[n..] == s[i..]
    {
      i, n := i - 1, n - 1;
      ba[n] := s[i];
      assert ba[n..] == [s[i]] + ba[n + 1..];
    }
  }

  /** Random bytes other than zero down to the third byte. */
  method PutPad(ba: array<int>, n0: nat, ghost rest: seq<int>) returns (ghost ps: seq<int>)
    requires 2 <= n0 <= ba.Length && ba[n0..] == rest
    modifies ba
    ensures |ps| == n0 - 2 && PadBytes(ps) && ba[2..] == ps + rest
  {
    var n := n0;
    ps := [];
    while n > 2
      invariant 2 <= n == n0 - |ps| && PadBytes(ps) && ba[n..] == ps + rest
    {
      var x: int :| 0 < x < 0x100;
      n := n - 1;
      ba[n] := x;
      assert ba[n..] == [x] + ba[n + 1..];
      Prepend(x, ps, rest);
      ps := [x] + ps;
    }
  }

  /** `pkcs1pad2`: the message as a number of `n` bytes, or an error when it is too long. */
  method Pad(s: seq<int>, n: int) returns (m: BigInteger?, ghost ps: seq<int>)
    ensures m == null <==> n < |s| + 11
    ensures m != null ==> fresh(m) && m.Valid() && |ps| == n - 3 - |s| && PadBytes(ps) && m.Value() == Unsigned(Message(ps, s), 0)
  {
    hide TwosComplement, Unsigned, Message;
    if n < |s| + 11 {
      return null, [];
    }
    var ba := new int[n];
    var i := PutText(ba, s);
    i := i - 1;
    ba[i] := 0;
    assert ba[i..] == [0] + ba[i + 1..];
    ps := PutPad(ba, i, [0] + s);
    ba[1] := 2;
    ba[0] := 0;
    assert ba[..] == [0, 2] + ba[2..];
    Regroup(ps, s);
    m := new BigInteger();
    FromBytes(m, ba[..]);
    LeadingZero(Message(ps, s));
  }

  lemma Prepend(x: int, ps: seq<int>, rest: seq<int>)
    ensures [x] + (ps + rest) == [x] + ps + rest
  {
  }

  lemma Regroup(ps: seq<int>, s: seq<int>)
    ensures [0, 2] + (ps + ([0] + s)) == [0] + Message(ps, s)
  {
  }

  lemma {:induction false} UnsignedShift(b: seq<int>, c: seq<int>, i: nat)
    requires |c| == |b| + 1 && i <= |b| && forall k :: 0 <= k < |b| ==> c[k + 1] % 0x100 == b[k] % 0x100
    ensures Unsigned(c, i + 1) == Unsigned(b, i)
    decreases |b| - i
  {
    if i < |b| { UnsignedShift(b, c, i + 1); }
  }

  /** A zero in front adds nothing and makes the number positive. */
  lemma LeadingZero(b: seq<int>)
    ensures TwosComplement([0] + b) == Unsigned(b, 0)
  {
    UnsignedShift(b, [0] + b, 0);
  }

  // ----- the bytes of a padded message

  function SignedByte(x: int): (d: int)
    ensures -0x80 <= d < 0x80 && d % 0x100 == x % 0x100 && (d == 0 <==> x % 0x100 == 0)
  {
    AsSigned(x % 0x100)
  }

  function SignedBytes(b: seq<int>): (r: seq<int>)
    ensures |r| == |b|
  {
    seq(|b|, i requires 0 <= i < |b| => SignedByte(b[i]))
  }

  lemma {:induction false} SignedBytesValue(b: seq<int>, i: nat)
    requires i <= |b|
    ensures Unsigned(SignedBytes(b), i) == Unsigned(b, i)
    decreases |b| - i
  {
    if i < |b| { SignedBytesValue(b, i + 1); }
  }

  /** `toByteArray` gives the padded message without its leading zero, every byte signed. */
  lemma MessageBytes(b: seq<int>, ps: seq<int>, s: seq<int>)
    requires b != [] && IsBytes(b) && Minimal(b) && TwosComplement(b) == Unsigned(Message(ps, s), 0)
    ensures b == [2] + SignedBytes(ps) + [0] + SignedBytes(s)
  {
    var e := SignedBytes(Message(ps, s));
    assert e == [2] + SignedBytes(ps) + [0] + SignedBytes(s);
    SignedBytesValue(Message(ps, s), 0);
    SignedIs(b);
    SignedIs(e);
    SameBytes(b, e);
  }

  // ----- unpadding

  function Zeros(z: nat): seq<int> {
    seq(z, _ => 0)
  }

  /** Zeros, a two, pad bytes, a zero and the text. */
  ghost predicate IsPadded(b: seq<int>, n: int, z: nat, ps: seq<int>, t: seq<int>) {
    b == Zeros(z) + [2] + ps + [0] + t && |b| - z == n - 1 && NonZero(ps)
  }

  /** `String.fromCharCode` of each byte. */
  function Units(t: seq<int>): (r: seq<int>)
    ensures |r| == |t|
  {
    seq(|t|, i requires 0 <= i < |t| => t[i] % 0x1_0000)
  }

  /** The text between the markers, for every array of bytes. */
  ghost predicate Unpadded(b: seq<int>, n: int, text: Option<seq<int>>) {
    (forall z: nat, ps, t :: IsPadded(b, n, z, ps, t) ==> text == Some(Units(t))) &&
    (text.Some? ==> exists z: nat, ps, t :: IsPadded(b, n, z, ps, t))
  }

  /** `b[i]`, and that the array has no such byte. */
  predicate Is(b: seq<int>, i: nat, x: int) {
    i < |b| && b[i] == x
  }

  /** The loops of `pkcs1unpad2`. */
  method UnpadBytes(b: seq<int>, n: int) returns (text: Option<seq<int>>)
    ensures Unpadded(b, n, text)
  {
    var z: nat := 0;
    while z < |b| && b[z] == 0
      invariant z <= |b| && forall k :: 0 <= k < z ==> b[k] == 0
    {
      z := z + 1;
    }
    if |b| - z != n - 1 || !Is(b, z, 2) {
      NotPadded(b, n, z);
      return None;
    }
    var i: nat := z + 1;
    while !Is(b, i, 0)
      invariant z < i && forall k :: z < k < i && k < |b| ==> b[k] != 0
      decreases |b| - i
    {
      i := i + 1;
      if i >= |b| {
        NoEnd(b, n, z);
        return None;
      }
    }
    text := Some(Units(b[i + 1..]));
    Found(b, n, z, i);
  }

  /** The leading zeros, the pad bytes and the text are determined. */
  lemma PaddedParts(b: seq<int>, n: int, z: nat, ps: seq<int>, t: seq<int>)
    requires IsPadded(b, n, z, ps, t)
    ensures (forall k :: 0 <= k < z ==> b[k] == 0) && z < |b| && b[z] == 2
    ensures (forall k :: z < k <= z + |ps| ==> b[k] != 0) && z + |ps| + 1 < |b| && b[z + |ps| + 1] == 0 && b[z + |ps| + 2..] == t
  {
    var c := Zeros(z) + [2];
    assert b == c + (ps + [0] + t);
    assert b[|c|..] == ps + [0] + t;
    forall k | z < k <= z + |ps| ensures b[k] != 0 { assert b[k] == ps[k - z - 1]; }
  }

  lemma NotPadded(b: seq<int>, n: int, z: nat)
    requires z <= |b| && (forall k :: 0 <= k < z ==> b[k] == 0) && (Is(b, z, 0) ==> false) && (|b| - z != n - 1 || !Is(b, z, 2))
    ensures Unpadded(b, n, None)
  {
    forall z': nat, ps, t | IsPadded(b, n, z', ps, t) ensures false {
      PaddedParts(b, n, z', ps, t);
    }
  }

  lemma NoEnd(b: seq<int>, n: int, z: nat)
    requires z < |b| && b[z] == 2 && (forall k :: 0 <= k < z ==> b[k] == 0) && forall k :: z < k < |b| ==> b[k] != 0
    ensures Unpadded(b, n, None)
  {
    forall z': nat, ps, t | IsPadded(b, n, z', ps, t) ensures false {
      PaddedParts(b, n, z', ps, t);
    }
  }

  lemma Found(b: seq<int>, n: int, z: nat, i: nat)
    requires z < i < |b| && |b| - z == n - 1 && b[z] == 2 && b[i] == 0
    requires (forall k :: 0 <= k < z ==> b[k] == 0) && forall k :: z < k < i ==> b[k] != 0
    ensures Unpadded(b, n, Some(Units(b[i + 1..])))
  {
    forall z': nat, ps, t | IsPadded(b, n, z', ps, t) ensures t == b[i + 1..] {
      PaddedParts(b, n, z', ps, t);
    }
    var ps := b[z + 1..i];
    assert b == Zeros(z) + [2] + ps + [0] + b[i + 1..];
    assert IsPadded(b, n, z, ps, b[i + 1..]);
  }

  /** The text in the number `y` of `n` bytes. */
  ghost predicate TextOf(y: int, n: int, text: Option<seq<int>>) {
    forall b :: b != [] && IsBytes(b) && Minimal(b) && TwosComplement(b) == y ==> Unpadded(b, n, text)
  }

  ghost predicate HasBytes(y: int) {
    exists b :: b != [] && IsBytes(b) && Minimal(b) && TwosComplement(b) == y
  }

  /** `pkcs1unpad2`. */
  method Unpad(d: BigInteger, n: int) returns (text: Option<seq<int>>)
    requires d.Valid()
    ensures TextOf(d.Value(), n, text) && HasBytes(d.Value())
  {
    var b := ToByteArray(d);
    text := UnpadBytes(b, n);
    forall c | c != [] && IsBytes(c) && Minimal(c) && TwosComplement(c) == d.Value() ensures c == b {
      SignedIs(b);
      SignedIs(c);
      SameBytes(b, c);
    }
  }

  // ----- the round trip

  /** What is left of a text after padding and unpadding: a unit keeps its low byte, taken as signed. */
  function Through(s: seq<int>): seq<int> {
    Units(SignedBytes(s))
  }

  /** Unpadding undoes padding up to `Through`, whatever the pad bytes. */
  lemma PadUnpad(ps: seq<int>, s: seq<int>, n: int, y: int, text: Option<seq<int>>)
    requires PadBytes(ps) && |ps| == n - 3 - |s| && y == Unsigned(Message(ps, s), 0) && TextOf(y, n, text) && HasBytes(y)
    ensures text == Some(Through(s))
  {
    var b :| b != [] && IsBytes(b) && Minimal(b) && TwosComplement(b) == y;
    MessageBytes(b, ps, s);
    var t := SignedBytes(s);
    assert b == Zeros(0) + [2] + SignedBytes(ps) + [0] + t;
    assert IsPadded(b, n, 0, SignedBytes(ps), t);
  }

  /** A text comes back exactly when each of its units is below 128 or at least 0xff80. */
  lemma ThroughSame(s: seq<int>)
    requires IsText(s)
    ensures Through(s) == s <==> forall k :: 0 <= k < |s| ==> s[k] < 0x80 || s[k] >= 0xff80
  {
    forall k | 0 <= k < |s| ensures Through(s)[k] == s[k] <==> s[k] < 0x80 || s[k] >= 0xff80 {
      assert Through(s)[k] == AsSigned(s[k] % 0x100) % 0x1_0000;
    }
    if Through(s) != s {
      assert |Through(s)| == |s|;
    }
  }

  /** The lost texts: the one unit 0x80 comes back as 0xff80. */
  lemma HighByteLost()
    ensures Through([0x80]) == [0xff80]
  {
    assert Through([0x80])[0] == 0xff80;
  }

  // ----- encryption and decryption

  /** The bytes that a number of so many bits takes. */
  function ByteLength(bits: nat): nat {
    (bits + 7) / 8
  }

  ghost predicate BitsOf(x: int, bits: nat) {
    if bits == 0 then x == 0 else Pow2(bits - 1) <= x < Pow2(bits)
  }

  method BitLength(x: BigInteger) returns (bits: nat)
    requires x.Valid() && x.s == 0
    ensures BitsOf(x.Value(), bits)
  {
    var n, nb := BitLengthOf(x);
    if x.t > 0 {
      TopWord(x.digits, x.t, nb);
      bits := n;
    } else {
      bits := 0;
    }
  }

  lemma TopWord(a: seq<int>, t: nat, nb: nat)
    requires 0 < t && IsDigits(a, 0, t) && 1 <= nb <= DB && Pow2(nb - 1) <= a[t - 1] < Pow2(nb)
    ensures BitsOf(V(a, 0, t, 0), DB * (t - 1) + nb)
  {
    VSnoc(a, a, 0, t - 1, 0);
    VTop(a, 0, t - 1, a[t - 1]);
    VBound(a, 0, t - 1);
    PowDigits(t - 1);
    Pow2Add(DB * (t - 1), nb - 1);
    Pow2Add(DB * (t - 1), nb);
    hide Pow2, P, V;
    MulAtLeast(P(t - 1), a[t - 1], Pow2(nb - 1));
    MulAtLeast(P(t - 1), Pow2(nb), a[t - 1] + 1);
    Distributes(P(t - 1), a[t - 1], 1);
  }

  lemma {:induction false} UnsignedBound(b: seq<int>, i: nat)
    requires i <= |b|
    ensures Unsigned(b, i) < Pow2(8 * (|b| - i))
    decreases |b| - i
  {
    if i < |b| {
      UnsignedBound(b, i + 1);
      var q := Pow2(8 * (|b| - 1 - i));
      Pow2Add(8, 8 * (|b| - 1 - i));
      assert Pow2(8) == 0x100;
      MulAtLeast(q, 0xff, b[i] % 0x100);
    }
  }

  /** A padded message is smaller than the modulus. */
  lemma MessageBelow(ps: seq<int>, s: seq<int>, x: int, bits: nat)
    requires BitsOf(x, bits) && bits > 0 && |ps| == ByteLength(bits) - 3 - |s|
    ensures Unsigned(Message(ps, s), 0) < x
  {
    UnsignedBound(Message(ps, s), 0);
    Pow2Monotone(8 * |Message(ps, s)|, bits - 1);
  }

  /** A number as an even number of hexadecimal digits. */
  method EvenHex(c: BigInteger) returns (h: string)
    requires c.Valid() && c.s == 0
    ensures |h| % 2 == 0 && IsHex(h) && HexValue(h) == c.Value()
  {
    h := ToHex(c);
    if |h| % 2 != 0 {
      ZeroHex(h);
      h := "0" + h;
    }
  }

  lemma ZeroHex(h: string)
    requires h != "" && forall k :: 0 <= k < |h| ==> 0 <= IntAt(h[k]) < 16
    ensures HexValue("0" + h) == HexValue(h) && IsHex("0" + h)
  {
    HexShift(h, "0" + h, 0);
    assert !Negative(h, 0) && !Negative("0" + h, 0);
  }

  /** `encrypt`: an even number of hexadecimal digits, or an error when the text is too long. */
  method Encrypt(key: Key, text: seq<int>) returns (h: Option<string>, ghost ps: seq<int>, ghost bits: nat)
    requires key.Valid()
    ensures BitsOf(key.n.Value(), bits) && (h == None <==> ByteLength(bits) < |text| + 11)
    ensures h.Some? ==> |h.value| % 2 == 0 && IsHex(h.value)
    ensures h.Some? ==> PadBytes(ps) && |ps| == ByteLength(bits) - 3 - |text|
    ensures h.Some? ==> HexValue(h.value) == Power(Unsigned(Message(ps, text), 0), key.e) % key.n.Value()
  {
    var n := BitLength(key.n);
    bits := n;
    var m;
    m, ps := Pad(text, ByteLength(n));
    if m == null {
      return None, ps, bits;
    }
    var c := DoPublic(key, m);
    VFits(c.digits, 0, c.t, c.s);
    var e := EvenHex(c);
    h := Some(e);
  }

  /** `decrypt`: the private operation, then the text in the number. */
  method Decrypt(key: Key, h: string) returns (text: Option<seq<int>>, ghost y: int, ghost bits: nat)
    requires key.Valid() && IsHex(h)
    ensures BitsOf(key.n.Value(), bits) && 0 <= y < key.n.Value()
    ensures Cong(y, Power(HexValue(h), key.dmp1.Value()), key.p.Value()) && Cong(y, Power(HexValue(h), key.dmq1.Value()), key.q.Value())
    ensures TextOf(y, ByteLength(bits), text) && HasBytes(y)
  {
    var c := new BigInteger();
    FromHex(c, h);
    var m := DoPrivate(key, c);
    var n := BitLength(key.n);
    text := Unpad(m, ByteLength(n));
    y, bits := m.Value(), n;
  }

  lemma BitsUnique(x: int, a: nat, b: nat)
    requires BitsOf(x, a) && BitsOf(x, b)
    ensures a == b
  {
    if a < b {
      Pow2Monotone(a, b - 1);
    } else if b < a {
      Pow2Monotone(b, a - 1);
    }
  }

  /** The benchmark: encrypt a text and decrypt the result. A text that is not too long comes back
      as it was if and only if each of its units is below 128 or at least 0xff80. */
  method EncryptDecrypt(key: Key, text: seq<int>) returns (r: Option<seq<int>>, ghost bits: nat)
    requires key.Valid() && IsText(text)
    ensures BitsOf(key.n.Value(), bits) && (r == None <==> ByteLength(bits) < |text| + 11)
    ensures r.Some? ==> r.value == Through(text)
    ensures r.Some? ==> (r.value == text <==> forall k :: 0 <= k < |text| ==> text[k] < 0x80 || text[k] >= 0xff80)
  {
    var h, ps, bits1 := Encrypt(key, text);
    bits := bits1;
    if h == None {
      return None, bits;
    }
    ghost var y, bits2;
    r, y, bits2 := Decrypt(key, h.value);
    BitsUnique(key.n.Value(), bits1, bits2);
    ghost var x := Unsigned(Message(ps, text), 0);
    MessageBelow(ps, text, key.n.Value(), bits);
    RoundTripNumbers(y, HexValue(h.value), x, key.n.Value(), key.e, key.p.Value(), key.q.Value(),
                     key.dmp1.Value(), key.dmq1.Value(), key.coeff.Value());
    PadUnpad(ps, text, ByteLength(bits), y, r);
    ThroughSame(text);
  }
}
