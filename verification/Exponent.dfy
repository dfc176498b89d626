/** Modular exponentiation: binary (HAC 14.79) and with a sliding window (HAC 14.85). */
module Exponentiation {
  import opened JsInt
  import opened Digits
  import opened BigIntegers
  import opened Division
  import opened Modular
  import opened BarrettReduction
  import opened Reducers

  // ----- bits of the exponent

  /** The exponent without its low `p` bits. */
  ghost function Above(E: nat, p: nat): nat {
    DivAtLeast(E, Pow2(p), 0);
    E / Pow2(p)
  }

  lemma AboveAdd(E: nat, p: nat, n: nat)
    ensures Above(E, p + n) == Above(E, p) / Pow2(n)
  {
    ShiftFurther(E, p, n);
  }

  /** One bit further down. */
  lemma AboveBit(E: nat, p: nat)
    ensures Above(E, p) == 2 * Above(E, p + 1) + Above(E, p) % 2
  {
    AboveAdd(E, p, 1);
    assert Pow2(1) == 2;
  }

  /** `(x & (1 << i)) != 0`. */
  function TestBit(x: int, i: nat): bool {
    x / Pow2(i) % 2 == 1
  }

  lemma SquarePower(b: int, k: nat)
    ensures Power(b, k) * Power(b, k) == Power(b, 2 * k)
  {
    PowerAdd(b, k, k);
  }

  lemma NextPower(b: int, k: nat)
    ensures Power(b, k) * Power(b, 1) == Power(b, k + 1) && Power(b, 1) == b
  {
    PowerAdd(b, k, 1);
    assert Power(b, 1) == b * Power(b, 0);
  }

  // ----- binary exponentiation

  /** One round of `exp`: square, and multiply by the base when the bit is set. */
  method ExpStep(z: Reducer, r: BigInteger, r2: BigInteger, g: BigInteger, bit: bool, ghost b: int, ghost k: nat)
    returns (s: BigInteger, s2: BigInteger)
    requires z.Ready() && z.Represents(g, b) && z.Represents(r, Power(b, k))
    requires r != r2 && r != g && r2 != g && g !in z.Scratch() && r !in z.Parts() && r2 !in z.Parts()
    modifies r, r2, z.Scratch()
    ensures (s == r && s2 == r2) || (s == r2 && s2 == r)
    ensures z.Represents(s, Power(b, 2 * k + if bit then 1 else 0))
  {
    SquarePower(b, k);
    NextPower(b, 2 * k);
    SqrTo(z, r, r2, Power(b, k));
    if bit {
      MulTo(z, r2, g, r, Power(b, 2 * k), b);
      s, s2 := r, r2;
    } else {
      s, s2 := r2, r;
    }
  }

  /** The loop of `exp` over the bits of `e` below its top bit `i0`. */
  method ExpLoop(z: Reducer, r0: BigInteger, r1: BigInteger, g: BigInteger, e: nat, i0: nat, ghost b: int)
    returns (r: BigInteger)
    requires z.Ready() && z.Represents(g, b) && z.Represents(r0, b) && Above(e, i0) == 1
    requires r0 != r1 && r0 != g && r1 != g && g !in z.Scratch() && r0 !in z.Parts() && r1 !in z.Parts()
    modifies r0, r1, z.Scratch()
    ensures (r == r0 || r == r1) && z.Represents(r, Power(b, e))
  {
    var i, r2 := i0, r1;
    r := r0;
    NextPower(b, 0);
    while i > 0
      invariant 0 <= i && ((r == r0 && r2 == r1) || (r == r1 && r2 == r0))
      invariant z.Represents(r, Power(b, Above(e, i)))
    {
      i := i - 1;
      AboveBit(e, i);
      r, r2 := ExpStep(z, r, r2, g, TestBit(e, i), b, Above(e, i + 1));
    }
    assert Pow2(0) == 1 && Above(e, 0) == e;
  }

  /** `exp`: this to the power `e` in the residues of `z`; one when `e` is out of range. */
  method Exp(self: BigInteger, e: int, z: Reducer) returns (res: BigInteger)
    requires z.Ready() && self.Valid() && self !in z.Parts()
    modifies z.Scratch()
    ensures fresh(res) && res.Valid()
    ensures 1 <= e <= 0xffff_ffff ==> res.Value() == Power(self.Value(), e) % z.Modulus()
    ensures !(1 <= e <= 0xffff_ffff) ==> res.Value() == 1
  {
    if e > 0xffff_ffff || e < 1 {
      res := new BigInteger();
      res.FromInt(1);
      return;
    }
    var g := Convert(z, self);
    res := ExpFrom(z, g, e, self.Value());
  }

  /** `exp` from the converted base on. */
  method ExpFrom(z: Reducer, g: BigInteger, e: nat, ghost b: int) returns (res: BigInteger)
    requires z.Ready() && z.Represents(g, b) && g !in z.Scratch() && 1 <= e <= 0xffff_ffff
    modifies z.Scratch()
    ensures fresh(res) && res.Valid() && res.Value() == Power(b, e) % z.Modulus()
  {
    var nb := NBits(e);
    TopBit(e, nb - 1);
    var r := CopyResidue(z, g, b);
    var r2 := new BigInteger();
    r := ExpLoop(z, r, r2, g, e, nb - 1, b);
    res := Revert(z, r, Power(b, e));
  }

  /** `g.copyTo(r)` for a new `r`. */
  method CopyResidue(z: Reducer, g: BigInteger, ghost b: int) returns (r: BigInteger)
    requires z.Ready() && z.Represents(g, b)
    ensures fresh(r) && z.Represents(r, b)
  {
    r := new BigInteger();
    g.CopyTo(r);
  }

  lemma TopBit(e: nat, i: nat)
    requires Pow2(i) <= e < 2 * Pow2(i)
    ensures Above(e, i) == 1
  {
    DivUnique(e, Pow2(i), 1, e - Pow2(i));
  }

  /** `modPowInt`: this to the power `e` modulo `m`, with the reducer the source picks. */
  method ModPowInt(self: BigInteger, e: int, m: BigInteger) returns (res: BigInteger)
    requires self.Valid() && m.Valid() && m.s == 0 && m.Value() > 0 && self != m
    ensures fresh(res) && res.Valid()
    ensures 1 <= e <= 0xffff_ffff ==> res.Value() == Power(self.Value(), e) % m.Value()
    ensures !(1 <= e <= 0xffff_ffff) ==> res.Value() == 1
  {
    var z: Reducer;
    var even := IsEven(m);
    if e < 256 || even {
      z := Classic(m);
    } else {
      z := NewMontgomery(m);
    }
    res := Exp(self, e, z);
  }

  // ----- the window

  /** The bits of the exponent from bit `i` of word `j` up. */
  lemma WordBits(e: seq<int>, t: nat, j: nat, i: nat)
    requires j < t && IsDigits(e, 0, t) && i <= DB && V(e, 0, t, 0) >= 0
    ensures Above(V(e, 0, t, 0), DB * j + i) == e[j] / Pow2(i) + Pow2(DB - i) * V(e, j + 1, t, 0)
  {
    var E, h := V(e, 0, t, 0), V(e, j + 1, t, 0);
    hide Pow2, P;
    AboveAdd(E, DB * j, i);
    PowDigits(j);
    ShiftedValue(e, j, t, 0);
    PowSplit(i);
    RShiftQuotient(e[j], h, Pow2(i), Pow2(DB - i));
  }

  lemma WordBit(e: seq<int>, t: nat, j: nat, i: nat)
    requires j < t && IsDigits(e, 0, t) && i < DB && V(e, 0, t, 0) >= 0
    ensures Above(V(e, 0, t, 0), DB * j + i) % 2 == 1 <==> TestBit(e[j], i)
  {
    WordBits(e, t, j, i);
    EvenPart(e[j] / Pow2(i), Pow2(DB - i - 1), V(e, j + 1, t, 0));
  }

  lemma EvenPart(d: int, p: int, h: int)
    ensures (d + 2 * p * h) % 2 == d % 2
  {
    assert 2 * p * h == 2 * (p * h);
  }

  /** `w` holds the `n` bits of the exponent from bit `p` down, zeros standing for bits below bit 0. */
  ghost predicate Window(E: nat, p: nat, n: nat, w: int) {
    0 <= w < Pow2(n) &&
    if n <= p + 1 then Above(E, p + 1 - n) == Above(E, p + 1) * Pow2(n) + w
    else w == (E - Above(E, p + 1) * Pow2(p + 1)) * Pow2(n - 1 - p)
  }

  /** Dropping a zero bit at the low end. */
  lemma WindowHalf(E: nat, p: nat, n: nat, w: int)
    requires Window(E, p, n, w) && w % 2 == 0 && n > 0
    ensures Window(E, p, n - 1, w / 2)
  {
    var A := Above(E, p + 1);
    if n <= p + 1 {
      AboveBit(E, p + 1 - n);
      HalfSum(A, Pow2(n - 1), w);
    } else {
      var u, q := E - A * Pow2(p + 1), Pow2(n - 2 - p);
      assert w == u * (2 * q) == 2 * (u * q);
      assert Pow2(0) == 1;
      if n - 1 == p + 1 {
        assert Above(E, 0) == E;
      }
    }
  }

  lemma HalfSum(A: int, q: int, w: int)
    requires w % 2 == 0
    ensures (A * (2 * q) + w) / 2 == A * q + w / 2
  {
    assert A * (2 * q) == 2 * (A * q);
  }

  /** An odd window lies within the exponent. */
  lemma OddWindow(E: nat, p: nat, n: nat, w: int)
    requires Window(E, p, n, w) && w % 2 == 1
    ensures n <= p + 1
  {
    if n > p + 1 {
      var u, q := E - Above(E, p + 1) * Pow2(p + 1), Pow2(n - 2 - p);
      TwiceProduct(u, q);
    }
  }

  lemma TwiceProduct(u: int, q: int)
    ensures u * (2 * q) % 2 == 0
  {
    assert u * (2 * q) == 2 * (u * q);
  }

  /** A window whose first bit is set is not zero. */
  lemma WindowNonzero(E: nat, p: nat, n: nat, w: int)
    requires Window(E, p, n, w) && n >= 1 && Above(E, p) % 2 == 1
    ensures w > 0
  {
    if w == 0 {
      if n <= p + 1 {
        AboveAdd(E, p + 1 - n, n - 1);
        EvenQuotient(Above(E, p + 1), Pow2(n - 1));
      } else {
        ZeroProduct(E - Above(E, p + 1) * Pow2(p + 1), Pow2(n - 1 - p));
        EvenQuotient(Above(E, p + 1), Pow2(p));
      }
    }
  }

  lemma EvenQuotient(A: int, q: int)
    requires q > 0
    ensures A * (2 * q) / q == 2 * A
  {
    DivUnique(A * (2 * q), q, 2 * A, 0);
  }

  lemma ZeroProduct(x: int, q: int)
    requires q > 0 && x * q == 0
    ensures x == 0
  {}

  lemma ModMultiple(d: int, m: int, x: int)
    requires m > 0
    ensures (d + m * x) % m == d % m
  {
    Expand(m, d / m, x);
    DivUnique(d + m * x, m, d / m + x, d % m);
  }

  /** The low bits of a number are those of its lowest word. */
  lemma LowOfWord(d: int, h: int, i: nat)
    requires i <= DB
    ensures (d + DV * h) % Pow2(i) == d % Pow2(i)
  {
    PowSplit(i);
    Assoc(Pow2(i), Pow2(DB - i), h);
    ModMultiple(d, Pow2(i), Pow2(DB - i) * h);
  }

  lemma WindowFromMod(E: nat, p: nat, k: nat, w: int)
    requires k <= p + 1 && w == Above(E, p + 1 - k) % Pow2(k)
    ensures Window(E, p, k, w)
  {
    AboveAdd(E, p + 1 - k, k);
    DivModIdentity(Above(E, p + 1 - k), Pow2(k));
  }

  lemma DivModIdentity(x: int, m: int)
    requires m > 0
    ensures x == x / m * m + x % m && 0 <= x % m < m
  {}

  /** The window lies in one word. */
  lemma WindowInWord(e: seq<int>, t: nat, j: nat, i: nat, k: nat)
    requires j < t && IsDigits(e, 0, t) && i < DB && 1 <= k <= i + 1 && V(e, 0, t, 0) >= 0
    ensures Window(V(e, 0, t, 0), DB * j + i, k, e[j] / Pow2(i - (k - 1)) % Pow2(k))
  {
    var E, lo, h := V(e, 0, t, 0), i - (k - 1), V(e, j + 1, t, 0);
    WordBits(e, t, j, lo);
    Pow2Add(k, DB - lo - k);
    Assoc(Pow2(k), Pow2(DB - lo - k), h);
    ModMultiple(e[j] / Pow2(lo), Pow2(k), Pow2(DB - lo - k) * h);
    WindowFromMod(E, DB * j + i, k, e[j] / Pow2(lo) % Pow2(k));
  }

  /** The window reaches into the next lower word. */
  lemma WindowAcross(e: seq<int>, t: nat, j: nat, i: nat, k: nat)
    requires 0 < j < t && IsDigits(e, 0, t) && i < DB && i + 1 < k <= DB && V(e, 0, t, 0) >= 0
    ensures Window(V(e, 0, t, 0), DB * j + i, k, e[j - 1] / Pow2(DB + i - (k - 1)) + e[j] % Pow2(i + 1) * Pow2(k - 1 - i))
    ensures e[j - 1] / Pow2(DB + i - (k - 1)) < Pow2(k - 1 - i)
  {
    hide Pow2, Window, Above;
    var s, h := DB + i - (k - 1), V(e, j + 1, t, 0);
    WordBits(e, t, j - 1, s);
    AcrossWords(e[j - 1], e[j], h, i, k);
    assert V(e, j, t, 0) == e[j] + DV * h && DB - s == k - 1 - i;
    WindowFromMod(V(e, 0, t, 0), DB * j + i, k, e[j - 1] / Pow2(s) + e[j] % Pow2(i + 1) * Pow2(k - 1 - i));
  }

  /** The bits of two words, `h` above them, that make a window from bit `i` of the upper one. */
  lemma AcrossWords(low: int, d: int, h: int, i: nat, k: nat)
    requires 0 <= low < DV && i < DB && i + 1 < k <= DB
    ensures 0 <= low / Pow2(DB + i - (k - 1)) < Pow2(k - 1 - i)
    ensures (low / Pow2(DB + i - (k - 1)) + Pow2(k - 1 - i) * (d + DV * h)) % Pow2(k)
         == low / Pow2(DB + i - (k - 1)) + d % Pow2(i + 1) * Pow2(k - 1 - i)
  {
    hide Pow2;
    var s, b, c := DB + i - (k - 1), Pow2(i + 1), Pow2(k - 1 - i);
    PowSplit(s);
    SplitDigit(low, c, Pow2(s));
    LowOfWord(d, h, i + 1);
    Pow2Add(k - 1 - i, i + 1);
    AcrossSum(low / Pow2(s), c, d + DV * h, b);
  }

  lemma AcrossSum(low: int, c: int, v: int, b: int)
    requires 0 <= low < c && b > 0
    ensures c * b > 0 && (low + c * v) % (c * b) == low + v % b * c
  {
    var q, m := v / b, v % b;
    MulAtLeast(c, b, 1);
    Expand(c, b * q, m);
    Assoc(c, b, q);
    MulAtLeast(c, b - 1, m);
    MulAtLeast(c, m, 0);
    Expand(c, b, -1);
    DivUnique(low + c * v, c * b, q, low + m * c);
  }

  /** The window reaches below bit 0. */
  lemma WindowBelow(e: seq<int>, t: nat, i: nat, k: nat)
    requires 0 < t && IsDigits(e, 0, t) && i < DB && i + 1 < k && V(e, 0, t, 0) >= 0
    ensures Window(V(e, 0, t, 0), i, k, e[0] % Pow2(i + 1) * Pow2(k - 1 - i))
  {
    var E, b, c := V(e, 0, t, 0), Pow2(i + 1), Pow2(k - 1 - i);
    LowOfWord(e[0], V(e, 1, t, 0), i + 1);
    Pow2Add(i + 1, k - 1 - i);
    DivModIdentity(E, b);
    BelowRange(E % b, b, c);
  }

  lemma BelowRange(u: int, b: int, c: int)
    requires 0 <= u < b && c > 0
    ensures 0 <= u * c < b * c
  {
    MulAtLeast(c, u, 0);
    MulAtLeast(c, b, u + 1);
  }

  /** The bits of the exponent that the loop takes next. */
  method TakeWindow(e: BigInteger, j: nat, i: nat, k: nat) returns (w: int)
    requires e.WF() && e.s == 0 && j < e.t && i < DB && 1 <= k <= 6 && e.Value() >= 0
    ensures Window(e.Value(), DB * j + i, k, w)
  {
    var k1 := k - 1;
    if i >= k1 {
      WindowInWord(e.digits, e.t, j, i, k);
      w := Low(Shr(e.digits[j], Pow2(i - k1)), Pow2(k));
    } else {
      WindowShift(e.digits[j], i, k1);
      w := Shl(Low(e.digits[j], Pow2(i + 1)), Pow2(k1 - i));
      if j > 0 {
        WindowAcross(e.digits, e.t, j, i, k);
        DivAtLeast(e.digits[j - 1], Pow2(DB + i - k1), 0);
        OrDisjoint(e.digits[j - 1] / Pow2(DB + i - k1), e.digits[j] % Pow2(i + 1), k1 - i);
        w := Or(Shr(e.digits[j - 1], Pow2(DB + i - k1)), w);
      } else {
        WindowBelow(e.digits, e.t, i, k);
      }
    }
  }

  lemma WindowShift(d: int, i: nat, k1: nat)
    requires 0 <= d < DV && i < k1 <= 5
    ensures 0 <= d % Pow2(i + 1) * Pow2(k1 - i) < 0x1000
  {
    Pow2Monotone(i + 1, 5);
    Pow2Monotone(k1 - i, 5);
    assert Pow2(5) == 32;
    MulBound(d % Pow2(i + 1), Pow2(k1 - i), 32, 32);
  }

  /** Drop the trailing zero bits of a window. */
  method StripZeros(w0: int, k: nat, ghost E: nat, ghost p: nat) returns (w: int, n: nat)
    requires Window(E, p, k, w0) && w0 > 0 && k >= 1
    ensures Window(E, p, n, w) && w % 2 == 1 && 1 <= n <= k && n <= p + 1
  {
    w, n := w0, k;
    while Low(w, 2) == 0
      invariant Window(E, p, n, w) && w > 0 && 1 <= n <= k
      decreases w
    {
      assert n == 1 ==> w < 2 * Pow2(0);
      WindowHalf(E, p, n, w);
      w, n := w / 2, n - 1;
    }
    OddWindow(E, p, n, w);
  }

  /** `sqrTo` on powers of the base. */
  method SqrPower(z: Reducer, x: BigInteger, r: BigInteger, ghost b: int, ghost c: nat)
    requires z.Ready() && z.Represents(x, Power(b, c)) && r !in z.Parts() && r != x && x !in z.Scratch()
    modifies r, z.Scratch()
    ensures z.Represents(r, Power(b, 2 * c))
  {
    SquarePower(b, c);
    SqrTo(z, x, r, Power(b, c));
  }

  /** `mulTo` on powers of the base. */
  method MulPower(z: Reducer, x: BigInteger, y: BigInteger, r: BigInteger, ghost b: int, ghost c: nat, ghost d: nat)
    requires z.Ready() && z.Represents(x, Power(b, c)) && z.Represents(y, Power(b, d))
    requires r !in z.Parts() && r != x && r != y && x !in z.Scratch() && y !in z.Scratch()
    modifies r, z.Scratch()
    ensures z.Represents(r, Power(b, c + d))
  {
    PowerAdd(b, c, d);
    MulTo(z, x, y, r, Power(b, c), Power(b, d));
  }

  /** Squares two at a time, then one more square or a swap. */
  method SquareRepeatedly(z: Reducer, r: BigInteger, r2: BigInteger, n0: nat, ghost b: int, ghost A: nat)
    returns (s: BigInteger, s2: BigInteger)
    requires z.Ready() && z.Represents(r, Power(b, A)) && r != r2 && r !in z.Parts() && r2 !in z.Parts()
    modifies r, r2, z.Scratch()
    ensures (s == r && s2 == r2) || (s == r2 && s2 == r)
    ensures z.Represents(s2, Power(b, A * Pow2(n0)))
  {
    var n := n0;
    ghost var c: nat := A;
    while n > 1
      invariant 0 <= n <= n0 && z.Represents(r, Power(b, c)) && c * Pow2(n) == A * Pow2(n0)
    {
      SqrPower(z, r, r2, b, c);
      SqrPower(z, r2, r, b, 2 * c);
      FourTimes(c, n);
      n, c := n - 2, 2 * (2 * c);
    }
    assert Pow2(0) == 1 && Pow2(1) == 2;
    s, s2 := r, r2;
    if n > 0 {
      SqrPower(z, r, r2, b, c);
    } else {
      s, s2 := r2, r;
    }
  }

  lemma FourTimes(c: nat, n: nat)
    requires n > 1
    ensures 2 * (2 * c) * Pow2(n - 2) == c * Pow2(n)
  {
    assert Pow2(n) == 2 * (2 * Pow2(n - 2));
  }

  /** The step of the loop for a window: square for each of its bits, then multiply. */
  method SquareAndMultiply(z: Reducer, r: BigInteger, r2: BigInteger, gw: BigInteger, n: nat, ghost b: int, ghost A: nat, ghost w: nat)
    returns (s: BigInteger, s2: BigInteger)
    requires z.Ready() && z.Represents(r, Power(b, A)) && z.Represents(gw, Power(b, w))
    requires r != r2 && r != gw && r2 != gw && gw !in z.Scratch() && r !in z.Parts() && r2 !in z.Parts()
    modifies r, r2, z.Scratch()
    ensures (s == r && s2 == r2) || (s == r2 && s2 == r)
    ensures z.Represents(s, Power(b, A * Pow2(n) + w))
  {
    s, s2 := SquareRepeatedly(z, r, r2, n, b, A);
    MulPower(z, s2, gw, s, b, A * Pow2(n), w);
  }

  // ----- the table of odd powers

  /** Every entry represents its power of the base. */
  ghost predicate Table(z: Reducer, g: map<nat, BigInteger>, b: int)
    requires z.Ready()
    reads z.m, if z.Barrett? then {z.mu} else {}, g.Values
  {
    forall n :: n in g ==> z.Represents(g[n], Power(b, n)) && g[n] !in z.Scratch()
  }

  ghost predicate OddsBelow(keys: set<nat>, n: nat) {
    forall i :: 1 <= i < n && i % 2 == 1 ==> i in keys
  }

  lemma NextOdd(keys: set<nat>, n: nat)
    requires OddsBelow(keys, n) && n % 2 == 1
    ensures OddsBelow(keys + {n}, n + 2)
  {}

  /** The table of odd powers: each one is the last one times the square. */
  method BuildTable(z: Reducer, g1: BigInteger, k: nat, ghost b: int) returns (g: map<nat, BigInteger>)
    requires z.Ready() && z.Represents(g1, b) && g1 !in z.Scratch() && 1 <= k <= 6
    modifies z.Scratch()
    ensures Table(z, g, b) && OddsBelow(g.Keys, Pow2(k))
    ensures forall n :: n in g ==> g[n] == g1 || fresh(g[n])
  {
    NextPower(b, 0);
    assert Pow2(1) == 2;
    g := map[1 := g1];
    if k > 1 {
      var g2 := new BigInteger();
      SqrPower(z, g1, g2, b, 1);
      g := FillTable(z, g1, g2, Pow2(k) - 1, b);
    }
  }

  method FillTable(z: Reducer, g1: BigInteger, g2: BigInteger, km: nat, ghost b: int) returns (g: map<nat, BigInteger>)
    requires z.Ready() && z.Represents(g1, Power(b, 1)) && z.Represents(g2, Power(b, 2))
    requires g1 !in z.Scratch() && g2 !in z.Scratch()
    modifies z.Scratch()
    ensures Table(z, g, b) && OddsBelow(g.Keys, km + 1)
    ensures forall n :: n in g ==> g[n] == g1 || fresh(g[n])
  {
    g := map[1 := g1];
    var n := 3;
    while n <= km
      invariant 3 <= n && n % 2 == 1 && n - 2 in g && Table(z, g, b)
      invariant OddsBelow(g.Keys, n)
      invariant forall i :: i in g ==> g[i] == g1 || fresh(g[i])
    {
      NextOdd(g.Keys, n);
      g := AddEntry(z, g2, g, n, b);
      n := n + 2;
    }
  }

  method AddEntry(z: Reducer, g2: BigInteger, g: map<nat, BigInteger>, n: nat, ghost b: int) returns (h: map<nat, BigInteger>)
    requires z.Ready() && z.Represents(g2, Power(b, 2)) && g2 !in z.Scratch() && Table(z, g, b) && n >= 2 && n - 2 in g
    modifies z.Scratch()
    ensures Table(z, h, b) && h.Keys == g.Keys + {n} && fresh(h[n]) && forall i :: i in g && i != n ==> h[i] == g[i]
  {
    var next := NextOddPower(z, g2, g[n - 2], b, n - 2);
    h := g[n := next];
  }

  /** The next odd power. */
  method NextOddPower(z: Reducer, g2: BigInteger, prev: BigInteger, ghost b: int, ghost c: nat) returns (r: BigInteger)
    requires z.Ready() && z.Represents(g2, Power(b, 2)) && z.Represents(prev, Power(b, c)) && g2 !in z.Scratch() && prev !in z.Scratch()
    modifies z.Scratch()
    ensures fresh(r) && z.Represents(r, Power(b, c + 2))
  {
    r := new BigInteger();
    MulPower(z, g2, prev, r, b, 2, c);
  }

  // ----- the sliding window loop

  /** The number of exponent bits still to be consumed when the next is bit `i` of word `j`. */
  function Left(j: int, i: int): int {
    DB * j + i + 1
  }

  /** The exponent after a window. */
  lemma AfterWindow(E: nat, p: nat, n: nat, w: int)
    requires Window(E, p, n, w) && n <= p + 1
    ensures Above(E, p + 1 - n) == Above(E, p + 1) * Pow2(n) + w
  {}

  /** Bit `i` of word `j`, `n` bits further down. */
  method Advance(j0: int, i0: int, n: nat) returns (j: int, i: int)
    requires 0 <= j0 && 0 <= i0 < DB && n <= DB && n <= Left(j0, i0)
    ensures -1 <= j <= j0 && 0 <= i < DB && Left(j, i) == Left(j0, i0) - n
  {
    j, i := j0, i0 - n;
    if i < 0 {
      i, j := i + DB, j - 1;
    }
  }

  /** The next window of the exponent without its trailing zeros. */
  method NextWindow(e: BigInteger, j: nat, i: nat, k: nat) returns (w: int, n: nat)
    requires e.WF() && e.s == 0 && j < e.t && i < DB && 1 <= k <= 6 && e.Value() >= 0
    requires Above(e.Value(), Left(j, i) - 1) % 2 == 1
    ensures 1 <= n <= k && n <= Left(j, i) && w % 2 == 1 && 1 <= w < Pow2(k)
    ensures Above(e.Value(), Left(j, i) - n) == Above(e.Value(), Left(j, i)) * Pow2(n) + w
  {
    var w0 := TakeWindow(e, j, i, k);
    WindowNonzero(e.Value(), DB * j + i, k, w0);
    w, n := StripZeros(w0, k, e.Value(), DB * j + i);
    AfterWindow(e.Value(), DB * j + i, n, w);
    Pow2Monotone(n, k);
  }

  /** Bring the result up to a window; the first one is copied from the table. */
  method ApplyWindow(z: Reducer, r: BigInteger, r2: BigInteger, gw: BigInteger, n: nat, is1: bool, ghost b: int, ghost A: nat, ghost w: nat)
    returns (s: BigInteger, s2: BigInteger)
    requires z.Ready() && z.Represents(gw, Power(b, w)) && (if is1 then A == 0 else z.Represents(r, Power(b, A)))
    requires r != r2 && r != gw && r2 != gw && gw !in z.Scratch() && r !in z.Parts() && r2 !in z.Parts()
    modifies r, r2, z.Scratch()
    ensures (s == r && s2 == r2) || (s == r2 && s2 == r)
    ensures z.Represents(s, Power(b, A * Pow2(n) + w))
  {
    if is1 {
      gw.CopyTo(r);
      s, s2 := r, r2;
      assert A * Pow2(n) == 0;
    } else {
      s, s2 := SquareAndMultiply(z, r, r2, gw, n, b, A, w);
    }
  }

  /** One round of the loop: take a window and bring the result up to it. */
  method WindowRound(z: Reducer, e: BigInteger, g: map<nat, BigInteger>, k: nat, j0: nat, i0: nat,
                     r: BigInteger, r2: BigInteger, is1: bool, ghost b: int)
    returns (j: int, i: int, s: BigInteger, s2: BigInteger)
    requires z.Ready() && Table(z, g, b) && 1 <= k <= 6 && OddsBelow(g.Keys, Pow2(k))
    requires e.WF() && e.s == 0 && j0 < e.t && i0 < DB && e.Value() >= 0
    requires r != r2 && r !in z.Parts() && r2 !in z.Parts() && r !in g.Values && r2 !in g.Values
    requires Above(e.Value(), Left(j0, i0) - 1) % 2 == 1
    requires if is1 then Above(e.Value(), Left(j0, i0)) == 0 else z.Represents(r, Power(b, Above(e.Value(), Left(j0, i0))))
    modifies r, r2, z.Scratch()
    ensures (s == r && s2 == r2) || (s == r2 && s2 == r)
    ensures -1 <= j <= j0 && 0 <= i < DB && 0 <= Left(j, i) < Left(j0, i0)
    ensures z.Represents(s, Power(b, Above(old(e.Value()), Left(j, i))))
  {
    var w, n := NextWindow(e, j0, i0, k);
    j, i := Advance(j0, i0, n);
    assert w in g.Keys;
    s, s2 := ApplyWindow(z, r, r2, g[w], n, is1, b, Above(e.Value(), Left(j0, i0)), w);
  }

  /** Square for every zero bit before the next window. */
  method SkipZeros(z: Reducer, e: BigInteger, j0: int, i0: int, r0: BigInteger, r1: BigInteger, ghost b: int)
    returns (j: int, i: int, r: BigInteger, r2: BigInteger)
    requires z.Ready() && e.WF() && e.s == 0 && -1 <= j0 < e.t && 0 <= i0 < DB && e.Value() >= 0 && Left(j0, i0) >= 0
    requires r0 != r1 && r0 !in z.Parts() && r1 !in z.Parts() && e !in z.Scratch() && e != r0 && e != r1
    requires z.Represents(r0, Power(b, Above(e.Value(), Left(j0, i0))))
    modifies r0, r1, z.Scratch()
    ensures (r == r0 && r2 == r1) || (r == r1 && r2 == r0)
    ensures -1 <= j <= j0 && 0 <= i < DB && 0 <= Left(j, i) <= Left(j0, i0)
    ensures z.Represents(r, Power(b, Above(e.Value(), Left(j, i))))
    ensures j >= 0 ==> Above(e.Value(), Left(j, i) - 1) % 2 == 1
  {
    hide Above, Power, Reducer.Represents;
    j, i, r, r2 := j0, i0, r0, r1;
    ghost var E := e.Value();
    while j >= 0 && !TestBit(e.digits[j], i)
      invariant (r == r0 && r2 == r1) || (r == r1 && r2 == r0)
      invariant -1 <= j <= j0 && 0 <= i < DB && 0 <= Left(j, i) <= Left(j0, i0)
      invariant z.Represents(r, Power(b, Above(E, Left(j, i))))
      decreases Left(j, i)
    {
      WordBit(e.digits, e.t, j, i);
      AboveBit(E, Left(j, i) - 1);
      SqrPower(z, r, r2, b, Above(E, Left(j, i)));
      r, r2 := r2, r;
      j, i := Advance(j, i, 1);
    }
    if j >= 0 {
      WordBit(e.digits, e.t, j, i);
    }
  }

  /** A window and the zero bits after it. */
  method LoopRound(z: Reducer, e: BigInteger, g: map<nat, BigInteger>, k: nat, j0: nat, i0: nat,
                   r: BigInteger, r2: BigInteger, is1: bool, ghost b: int)
    returns (j: int, i: int, s: BigInteger, s2: BigInteger)
    requires z.Ready() && Table(z, g, b) && 1 <= k <= 6 && OddsBelow(g.Keys, Pow2(k))
    requires e.WF() && e.s == 0 && j0 < e.t && i0 < DB && e.Value() >= 0 && e !in z.Scratch() && e != r && e != r2
    requires r != r2 && r !in z.Parts() && r2 !in z.Parts() && r !in g.Values && r2 !in g.Values
    requires Above(e.Value(), Left(j0, i0) - 1) % 2 == 1
    requires if is1 then Above(e.Value(), Left(j0, i0)) == 0 else z.Represents(r, Power(b, Above(e.Value(), Left(j0, i0))))
    modifies r, r2, z.Scratch()
    ensures (s == r && s2 == r2) || (s == r2 && s2 == r)
    ensures -1 <= j <= j0 && 0 <= i < DB && 0 <= Left(j, i) < Left(j0, i0)
    ensures z.Represents(s, Power(b, Above(e.Value(), Left(j, i))))
    ensures j >= 0 ==> Above(e.Value(), Left(j, i) - 1) % 2 == 1
    ensures Table(z, g, b)
  {
    j, i, s, s2 := WindowRound(z, e, g, k, j0, i0, r, r2, is1, b);
    j, i, s, s2 := SkipZeros(z, e, j, i, s, s2, b);
  }

  /** The loop over the bits of the exponent, from its top bit `i0` of word `j0` down. */
  method WindowLoop(z: Reducer, e: BigInteger, g: map<nat, BigInteger>, k: nat, j0: nat, i0: nat,
                    r0: BigInteger, r1: BigInteger, ghost b: int)
    returns (r: BigInteger)
    requires z.Ready() && Table(z, g, b) && 1 <= k <= 6 && OddsBelow(g.Keys, Pow2(k))
    requires e.WF() && e.s == 0 && j0 < e.t && i0 < DB && e.Value() >= 0 && e !in z.Scratch() && e != r0 && e != r1
    requires r0 != r1 && r0 !in z.Parts() && r1 !in z.Parts() && r0 !in g.Values && r1 !in g.Values
    requires Above(e.Value(), Left(j0, i0) - 1) == 1 && Above(e.Value(), Left(j0, i0)) == 0
    modifies r0, r1, z.Scratch()
    ensures (r == r0 || r == r1) && z.Represents(r, Power(b, e.Value()))
  {
    var j, i, r2, is1 := j0, i0, r1, true;
    r := r0;
    ghost var E := e.Value();
    while j >= 0
      invariant (r == r0 && r2 == r1) || (r == r1 && r2 == r0)
      invariant -1 <= j <= j0 && 0 <= i < DB && 0 <= Left(j, i) && Table(z, g, b)
      invariant j >= 0 ==> Above(E, Left(j, i) - 1) % 2 == 1
      invariant is1 ==> j >= 0 && Above(E, Left(j, i)) == 0
      invariant !is1 ==> z.Represents(r, Power(b, Above(E, Left(j, i))))
      decreases Left(j, i)
    {
      j, i, r, r2 := LoopRound(z, e, g, k, j, i, r, r2, is1, b);
      is1 := false;
    }
    assert Pow2(0) == 1 && Above(E, 0) == E;
  }

  /** The window size the source picks for an exponent of `bits` bits. */
  function WindowSize(bits: int): (k: nat)
    ensures 1 <= k <= 6
  {
    if bits < 18 then 1
    else if bits < 48 then 3
    else if bits < 144 then 4
    else if bits < 768 then 5
    else 6
  }

  /** The top bit of the exponent. */
  lemma TopOfExponent(e: seq<int>, t: nat, nb: nat)
    requires t > 0 && IsDigits(e, 0, t) && 1 <= nb <= DB && Pow2(nb - 1) <= e[t - 1] < Pow2(nb) && V(e, 0, t, 0) >= 0
    ensures Above(V(e, 0, t, 0), Left(t - 1, nb - 1) - 1) == 1 && Above(V(e, 0, t, 0), Left(t - 1, nb - 1)) == 0
  {
    WordBits(e, t, t - 1, nb - 1);
    assert V(e, t, t, 0) == 0;
    DivUnique(e[t - 1], Pow2(nb - 1), 1, e[t - 1] - Pow2(nb - 1));
    AboveAdd(V(e, 0, t, 0), DB * (t - 1) + nb - 1, 1);
    assert Pow2(1) == 2;
  }

  /** The reducer the source picks: classic for short exponents, Barrett for even moduli, else Montgomery. */
  method PickReducer(bits: int, m: BigInteger) returns (z: Reducer)
    requires m.Valid() && m.s == 0 && m.Value() > 0 && m.t + 4 <= DV
    ensures z.Ready() && z.m == m && fresh(z.Parts() - {m}) && m !in z.Scratch()
  {
    var even := IsEven(m);
    if bits < 8 {
      z := Classic(m);
    } else if even {
      var mu, r2, q3 := NewBarrett(m);
      z := Barrett(m, mu, r2, q3);
    } else {
      z := NewMontgomery(m);
    }
  }

  /** `bitLength` of a number that is not negative. */
  method BitLengthOf(e: BigInteger) returns (bits: int, nb: int)
    requires e.Valid() && e.s == 0
    ensures e.t == 0 ==> bits == 0
    ensures e.t > 0 ==> 1 <= nb <= DB && Pow2(nb - 1) <= e.digits[e.t - 1] < Pow2(nb) && bits == DB * (e.t - 1) + nb
  {
    if e.t == 0 {
      return 0, 0;
    }
    nb := NBits(e.digits[e.t - 1]);
    TopWordBits(e.digits[e.t - 1], nb);
    bits := DB * (e.t - 1) + nb;
  }

  /** `modPow`: this to the power `e` modulo `m`. */
  method ModPow(self: BigInteger, e: BigInteger, m: BigInteger) returns (res: BigInteger)
    requires self.Valid() && e.Valid() && e.s == 0 && m.Valid() && m.s == 0 && m.Value() > 0 && self != m && m.t + 4 <= DV
    ensures fresh(res) && res.Valid()
    ensures e.Value() > 0 ==> res.Value() == Power(self.Value(), e.Value()) % m.Value()
    ensures e.Value() == 0 ==> res.Value() == 1
  {
    hide Power, Pow2, Above, P;
    LengthBound(e.digits, e.t, 0);
    var bits, nb := BitLengthOf(e);
    if bits <= 0 {
      res := new BigInteger();
      res.FromInt(1);
      return;
    }
    TopOfExponent(e.digits, e.t, nb);
    var z := PickReducer(bits, m);
    var g1 := Convert(z, self);
    res := ModPowFrom(z, g1, e, WindowSize(bits), e.t - 1, nb - 1, self.Value());
  }

  /** `modPow` from the converted base on. */
  method ModPowFrom(z: Reducer, g1: BigInteger, e: BigInteger, k: nat, j: nat, i: nat, ghost b: int) returns (res: BigInteger)
    requires z.Ready() && z.Represents(g1, b) && g1 !in z.Scratch() && 1 <= k <= 6
    requires e.WF() && e.s == 0 && j < e.t && i < DB && e.Value() >= 0 && e !in z.Scratch()
    requires Above(e.Value(), Left(j, i) - 1) == 1 && Above(e.Value(), Left(j, i)) == 0
    modifies z.Scratch()
    ensures fresh(res) && res.Valid() && res.Value() == Power(b, e.Value()) % z.Modulus()
  {
    var g := BuildTable(z, g1, k, b);
    var r := new BigInteger();
    var r2 := new BigInteger();
    r := WindowLoop(z, e, g, k, j, i, r, r2, b);
    res := Revert(z, r, Power(b, e.Value()));
  }
}
