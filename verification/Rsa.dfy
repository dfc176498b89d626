/** RSA: the public operation, the private one by Chinese remainders, and that one undoes the other. */
module Rsa {
  import opened Digits
  import opened BigIntegers
  import opened Multiplication
  import opened Modular
  import opened Reducers
  import opened Exponentiation

  // ----- prime moduli

  ghost predicate Prime(p: int) {
    p > 1 && forall d :: 1 < d < p ==> p % d != 0
  }

  /** An inverse modulo a prime, by the Euclidean algorithm. */
  ghost function Inverse(a: nat, p: int): (u: int)
    requires Prime(p) && 0 < a < p
    ensures Cong(a * u, 1, p)
    decreases a
  {
    if a == 1 then CongRefl(1, p); 1
    else
      var u := Inverse(p % a, p);
      InverseStep(a, p, p / a, p % a, u);
      -(p / a) * u
  }

  lemma InverseStep(a: int, p: int, q: int, r: int, u: int)
    requires p > 0 && p == a * q + r && Cong(r * u, 1, p)
    ensures Cong(a * (-q * u), 1, p)
  {
    assert a * (-q * u) == (r - p) * u == r * u + p * -u;
    CongIntro(a * (-q * u), r * u, p, -u);
    CongTrans(a * (-q * u), r * u, 1, p);
  }

  /** Euclid's lemma. */
  lemma PrimeDivides(p: int, a: int, b: int)
    requires Prime(p) && Cong(a * b, 0, p) && !Cong(a, 0, p)
    ensures Cong(b, 0, p)
  {
    var c := a % p;
    CongMod(a, p);
    if c == 0 {
      assert false;
    }
    var u := Inverse(c, p);
    CongSym(a, c, p);
    CongRefl(b, p);
    CongRefl(u, p);
    CongMul(c, a, b, b, p);
    CongTrans(c * b, a * b, 0, p);
    CongMul(u, u, c * b, 0, p);
    CongMul(c * u, 1, b, b, p);
    CongSym(c * u * b, b, p);
    assert c * u * b == u * (c * b);
    CongTrans(b, c * u * b, 0, p);
  }

  // ----- Fermat's little theorem

  ghost function Binomial(n: nat, k: nat): nat {
    if k == 0 then 1 else if n == 0 then 0 else Binomial(n - 1, k - 1) + Binomial(n - 1, k)
  }

  lemma {:induction false} BinomialAbove(n: nat, k: nat)
    requires k > n
    ensures Binomial(n, k) == 0
  {
    if n > 0 {
      BinomialAbove(n - 1, k - 1);
      BinomialAbove(n - 1, k);
    }
  }

  lemma {:induction false} BinomialTop(n: nat)
    ensures Binomial(n, n) == 1
  {
    if n > 0 {
      BinomialTop(n - 1);
      BinomialAbove(n - 1, n);
    }
  }

  /** `k * C(n, k) == n * C(n-1, k-1)`. */
  lemma {:induction false} BinomialAbsorb(n: nat, k: nat)
    requires n > 0 && k > 0
    ensures k * Binomial(n, k) == n * Binomial(n - 1, k - 1)
    decreases n
  {
    if n == 1 {
      if k > 1 {
        BinomialAbove(0, k);
        BinomialAbove(0, k - 1);
      }
    } else if k == 1 {
      BinomialAbsorb(n - 1, 1);
    } else {
      var a, b, c := Binomial(n - 1, k - 1), Binomial(n - 1, k), Binomial(n - 2, k - 1);
      var d := Binomial(n - 2, k - 2);
      BinomialAbsorb(n - 1, k - 1);
      BinomialAbsorb(n - 1, k);
      assert (k - 1) * a == (n - 1) * d && k * b == (n - 1) * c && a == d + c;
      AbsorbSum(n, k, a, b, c, d);
    }
  }

  lemma AbsorbSum(n: int, k: int, a: int, b: int, c: int, d: int)
    requires (k - 1) * a == (n - 1) * d && k * b == (n - 1) * c && a == d + c
    ensures k * (a + b) == n * a
  {
    assert k * (a + b) == (k - 1) * a + a + k * b;
    assert (n - 1) * d + (n - 1) * c == (n - 1) * a;
  }

  /** `C(n,0) + C(n,1)*a + ... + C(n,k-1)*a^(k-1)`. */
  ghost function BinomialSum(a: int, n: nat, k: nat): int {
    if k == 0 then 0 else BinomialSum(a, n, k - 1) + Binomial(n, k - 1) * Power(a, k - 1)
  }

  lemma {:induction false} BinomialSumStep(a: int, n: nat, k: nat)
    ensures BinomialSum(a, n + 1, k + 1) == BinomialSum(a, n, k + 1) + a * BinomialSum(a, n, k)
  {
    BinomialSumNext(a, n + 1, k);
    BinomialSumNext(a, n, k);
    if k > 0 {
      assert Power(a, k) == a * Power(a, k - 1) && Binomial(n + 1, k) == Binomial(n, k - 1) + Binomial(n, k);
      hide Power, Binomial, BinomialSum;
      BinomialSumStep(a, n, k - 1);
      BinomialSumNext(a, n, k - 1);
      RegroupTerms(BinomialSum(a, n, k), BinomialSum(a, n, k - 1), Binomial(n, k - 1), Binomial(n, k), a, Power(a, k - 1));
    }
  }

  lemma BinomialSumNext(a: int, n: nat, k: nat)
    ensures BinomialSum(a, n, k + 1) == BinomialSum(a, n, k) + Binomial(n, k) * Power(a, k)
  {}

  lemma RegroupTerms(s: int, t: int, x: int, y: int, a: int, q: int)
    ensures s + a * t + (x + y) * (a * q) == s + y * (a * q) + a * (t + x * q)
  {}

  lemma {:induction false} BinomialTheorem(a: int, n: nat)
    ensures Power(a + 1, n) == BinomialSum(a, n, n + 1)
  {
    if n == 0 {
      BinomialSumNext(a, 0, 0);
    } else {
      hide Binomial, BinomialSum;
      var s := BinomialSum(a, n - 1, n);
      assert Power(a + 1, n) == (a + 1) * Power(a + 1, n - 1);
      hide Power;
      BinomialTheorem(a, n - 1);
      BinomialSumStep(a, n - 1, n);
      BinomialAbove(n - 1, n);
      BinomialSumNext(a, n - 1, n);
      ZeroTerm(Binomial(n - 1, n), Power(a, n));
      OnePlus(a, s);
    }
  }

  lemma ZeroTerm(b: int, x: int)
    requires b == 0
    ensures b * x == 0
  {}

  lemma OnePlus(a: int, s: int)
    ensures (a + 1) * s == s + a * s
  {}

  lemma BinomialPrime(p: int, k: nat)
    requires Prime(p) && 0 < k < p
    ensures Cong(Binomial(p, k), 0, p)
  {
    BinomialAbsorb(p, k);
    CongIntro(k * Binomial(p, k), 0, p, Binomial(p - 1, k - 1));
    if Cong(k, 0, p) {
      CongUnique(k, 0, p);
      DivUnique(k, p, 0, k);
    }
    PrimeDivides(p, k, Binomial(p, k));
  }

  /** All but the first and the last term vanish. */
  lemma {:induction false} InnerTerms(a: int, p: int, k: nat)
    requires Prime(p) && 1 <= k <= p
    ensures Cong(BinomialSum(a, p, k), 1, p)
  {
    if k == 1 {
      BinomialSumNext(a, p, 0);
      CongRefl(1, p);
    } else {
      InnerTerms(a, p, k - 1);
      BinomialPrime(p, k - 1);
      CongRefl(Power(a, k - 1), p);
      CongMul(Binomial(p, k - 1), 0, Power(a, k - 1), Power(a, k - 1), p);
      CongAdd(BinomialSum(a, p, k - 1), 1, Binomial(p, k - 1) * Power(a, k - 1), 0, p);
    }
  }

  /** `a^p == a` modulo `p`. */
  lemma {:induction false} Fermat(a: nat, p: int)
    requires Prime(p)
    ensures Cong(Power(a, p), a, p)
  {
    if a == 0 {
      assert Power(0, p) == 0 * Power(0, p - 1);
      CongRefl(0, p);
    } else {
      Fermat(a - 1, p);
      BinomialTheorem(a - 1, p);
      BinomialTop(p);
      InnerTerms(a - 1, p, p);
      CongAdd(BinomialSum(a - 1, p, p), 1, Power(a - 1, p), a - 1, p);
    }
  }

  lemma FermatStep(a: nat, p: int, n: nat)
    requires Prime(p) && Cong(Power(a, n), a, p)
    ensures Cong(Power(a, n + (p - 1)), a, p)
  {
    PowerAdd(a, n, p - 1);
    CongRefl(Power(a, p - 1), p);
    CongMul(Power(a, n), a, Power(a, p - 1), Power(a, p - 1), p);
    Fermat(a, p);
    CongTrans(Power(a, n + (p - 1)), a * Power(a, p - 1), a, p);
  }

  /** A power congruent to one modulo `p - 1` is the identity modulo `p`. */
  lemma {:induction false} FermatPower(a: nat, p: int, k: nat, n: nat)
    requires Prime(p) && n == 1 + k * (p - 1)
    ensures Cong(Power(a, n), a, p)
    decreases k
  {
    if k == 0 {
      NextPower(a, 0);
      CongRefl(a, p);
    } else {
      assert n - (p - 1) == 1 + (k - 1) * (p - 1);
      MulAtLeast(p - 1, k - 1, 0);
      FermatPower(a, p, k - 1, n - (p - 1));
      FermatStep(a, p, n - (p - 1));
    }
  }

  lemma InverseExponents(a: nat, p: int, e: nat, d: nat)
    requires Prime(p) && e > 0 && d > 0 && Cong(e * d, 1, p - 1)
    ensures Cong(Power(Power(a, e), d), a, p)
  {
    var k := Multiple(e * d, 1, p - 1);
    MulAtLeast(e, d, 1);
    if k < 0 {
      MulAtLeast(p - 1, -1, k);
    }
    PowerMul(a, e, d);
    assert e * d == 1 + k * (p - 1);
    FermatPower(a, p, k, e * d);
  }

  /** Two distinct primes that divide a number divide it together. */
  lemma BothPrimes(x: int, y: int, p: int, q: int)
    requires Prime(p) && Prime(q) && p != q && Cong(x, y, p) && Cong(x, y, q)
    ensures p * q > 0 && Cong(x, y, p * q)
  {
    var t := Multiple(x, y, q);
    MulAtLeast(p, q, 1);
    CongIntro(q * t, 0, p, Multiple(x, y, p));
    if Cong(q, 0, p) {
      PrimesDiffer(p, q);
    }
    PrimeDivides(p, q, t);
    var u := Multiple(t, 0, p);
    assert q * (p * u) == p * q * u;
    CongIntro(x, y, p * q, u);
  }

  lemma PrimesDiffer(p: int, q: int)
    requires Prime(p) && Prime(q) && Cong(q, 0, p)
    ensures p == q
  {
    var k := Multiple(q, 0, p);
    if k <= 0 {
      MulAtLeast(p, 0, k);
    } else if k >= 2 {
      MulAtLeast(p, k, 2);
      DivUnique(q, p, k, 0);
    }
  }

  // ----- the operations

  datatype Key = Key(n: BigInteger, e: int, p: BigInteger, q: BigInteger, dmp1: BigInteger, dmq1: BigInteger, coeff: BigInteger) {
    /** The numbers of an RSA key with its Chinese remainder parameters. */
    ghost predicate Valid()
      reads n, p, q, dmp1, dmq1, coeff
    {
      && Natural(n) && Natural(p) && Natural(q) && Natural(dmp1) && Natural(dmq1) && Natural(coeff)
      && 1 <= e <= 0xffff_ffff && dmp1.Value() > 0 && dmq1.Value() > 0
      && Numbers(n.Value(), e, p.Value(), q.Value(), dmp1.Value(), dmq1.Value(), coeff.Value())
    }
  }

  /** A number that is not negative and not too long for Barrett reduction. */
  ghost predicate Natural(x: BigInteger)
    reads x
  {
    x.Valid() && x.s == 0 && x.t + 4 <= DV
  }

  /** What the parameters of a key are to each other. */
  ghost predicate Numbers(n: int, e: int, p: int, q: int, dp: int, dq: int, coeff: int) {
    && Prime(p) && Prime(q) && p != q && n == p * q
    && Cong(e * dp, 1, p - 1) && Cong(e * dq, 1, q - 1) && Cong(coeff * q, 1, p)
  }

  /** `doPublic`. */
  method DoPublic(key: Key, x: BigInteger) returns (c: BigInteger)
    requires key.Valid() && x.Valid() && x != key.n
    ensures fresh(c) && c.Valid() && c.Value() == Power(x.Value(), key.e) % key.n.Value()
  {
    MulAtLeast(key.p.Value(), key.q.Value(), 1);
    c := ModPowInt(x, key.e, key.n);
  }

  /** Garner's combination has both residues and is below the product. */
  lemma Combine(xp: int, xq: int, p: int, q: int, coeff: int)
    requires p > 0 && q > 0 && 0 <= xq < q && Cong(coeff * q, 1, p)
    ensures var y := (xp - xq) * coeff % p * q + xq; 0 <= y < p * q && Cong(y, xp, p) && Cong(y, xq, q)
  {
    var h := (xp - xq) * coeff % p;
    CombineResidue(xp - xq, q, p, coeff, h);
    CongRefl(xq, p);
    CongAdd(h * q, xp - xq, xq, xq, p);
    CongIntro(h * q + xq, xq, q, h);
    CombineRange(h, xq, p, q);
  }

  lemma CombineResidue(d: int, q: int, p: int, coeff: int, h: int)
    requires p > 0 && Cong(coeff * q, 1, p) && h == d * coeff % p
    ensures Cong(h * q, d, p)
  {
    CongMod(d * coeff, p);
    CongSym(d * coeff, h, p);
    CongRefl(q, p);
    CongRefl(d, p);
    CongMul(h, d * coeff, q, q, p);
    CongMul(d, d, coeff * q, 1, p);
    Assoc(d, coeff, q);
    CongTrans(h * q, d * (coeff * q), d, p);
  }

  lemma CombineRange(h: int, xq: int, p: int, q: int)
    requires 0 <= h < p && 0 <= xq < q
    ensures 0 <= h * q + xq < p * q
  {
    MulAtLeast(q, p, h + 1);
    MulAtLeast(q, h, 0);
  }

  /** One residue of the private operation: `x.mod(p).modPow(dp, p)`. */
  method PrivateResidue(x: BigInteger, p: BigInteger, dp: BigInteger) returns (r: BigInteger)
    requires x.Valid() && Natural(p) && Natural(dp) && dp.Value() > 0 && p.Value() > 0 && x != p
    ensures fresh(r) && r.Valid() && 0 <= r.Value() < p.Value() && Cong(r.Value(), Power(x.Value(), dp.Value()), p.Value())
  {
    ghost var P0, X, D := p.Value(), x.Value(), dp.Value();
    var u := Mod(x, p);
    r := ModPow(u, dp, p);
    CongMod(Power(X % P0, D), P0);
    CongSym(Power(X % P0, D), r.Value(), P0);
    CongMod(X, P0);
    CongSym(X, X % P0, P0);
    CongPower(X % P0, X, D, P0);
    CongTrans(r.Value(), Power(X % P0, D), Power(X, D), P0);
  }

  /** Add `p` until the first residue is not below the second one. */
  method RaiseAbove(xp0: BigInteger, xq: BigInteger, p: BigInteger) returns (xp: BigInteger)
    requires xp0.Valid() && xq.Valid() && p.Valid() && xp0.Value() >= 0 && xq.Value() >= 0 && p.Value() > 0
    ensures xp.Valid() && xp.Value() >= xq.Value() && Cong(xp.Value(), xp0.Value(), p.Value())
  {
    xp := xp0;
    VFits(xp.digits, 0, xp.t, xp.s);
    VFits(xq.digits, 0, xq.t, xq.s);
    CongRefl(xp0.Value(), p.Value());
    var c := xp.CompareTo(xq);
    while c < 0
      invariant xp.Valid() && xp.Value() >= 0 && Cong(xp.Value(), xp0.Value(), p.Value())
      invariant Sign(c) == Sign(xp.Value() - xq.Value())
      decreases xq.Value() - xp.Value()
    {
      var sum := new BigInteger();
      xp.AddTo(p, sum);
      CongIntro(sum.Value(), xp.Value(), p.Value(), 1);
      CongTrans(sum.Value(), xp.Value(), xp0.Value(), p.Value());
      xp := sum;
      VFits(xp.digits, 0, xp.t, xp.s);
      c := xp.CompareTo(xq);
    }
  }

  /** `(x - y) * c mod p`. */
  method TimesMod(x: BigInteger, y: BigInteger, c: BigInteger, p: BigInteger) returns (h: BigInteger)
    requires x.Valid() && y.Valid() && c.Valid() && p.Valid() && p.s == 0 && p.Value() > 0
    ensures fresh(h) && h.Valid() && h.Value() == (x.Value() - y.Value()) * c.Value() % p.Value()
  {
    var d := new BigInteger();
    x.SubTo(y, d);
    var m := new BigInteger();
    MultiplyTo(d, c, m);
    h := Mod(m, p);
  }

  /** The two residues combined. */
  method Garner(xp: BigInteger, xq: BigInteger, p: BigInteger, q: BigInteger, coeff: BigInteger) returns (y: BigInteger)
    requires xp.Valid() && xq.Valid() && q.Valid() && coeff.Valid() && p.Valid() && p.s == 0 && p.Value() > 0
    ensures fresh(y) && y.Valid()
    ensures y.Value() == (xp.Value() - xq.Value()) * coeff.Value() % p.Value() * q.Value() + xq.Value()
  {
    var h := TimesMod(xp, xq, coeff, p);
    var hq := new BigInteger();
    MultiplyTo(h, q, hq);
    y := new BigInteger();
    hq.AddTo(xq, y);
  }

  /** `doPrivate` with the Chinese remainder parameters. */
  method DoPrivate(key: Key, x: BigInteger) returns (y: BigInteger)
    requires key.Valid() && x.Valid() && x != key.p && x != key.q
    ensures fresh(y) && y.Valid() && 0 <= y.Value() < key.n.Value()
    ensures Cong(y.Value(), Power(x.Value(), key.dmp1.Value()), key.p.Value())
    ensures Cong(y.Value(), Power(x.Value(), key.dmq1.Value()), key.q.Value())
  {
    var xp := PrivateResidue(x, key.p, key.dmp1);
    var xq := PrivateResidue(x, key.q, key.dmq1);
    ghost var xp0 := xp.Value();
    xp := RaiseAbove(xp, xq, key.p);
    Combine(xp.Value(), xq.Value(), key.p.Value(), key.q.Value(), key.coeff.Value());
    y := Garner(xp, xq, key.p, key.q, key.coeff);
    CongTrans(y.Value(), xp.Value(), xp0, key.p.Value());
    CongTrans(y.Value(), xp0, Power(x.Value(), key.dmp1.Value()), key.p.Value());
    CongTrans(y.Value(), xq.Value(), Power(x.Value(), key.dmq1.Value()), key.q.Value());
  }

  /** Modulo one prime the private exponent undoes the public one. */
  lemma Undone(y: int, c: int, x: nat, n: int, e: nat, p: int, q: int, d: nat)
    requires Prime(p) && q > 0 && n == p * q && e > 0 && d > 0 && Cong(e * d, 1, p - 1)
    requires c == Power(x, e) % n && Cong(y, Power(c, d), p)
    ensures Cong(y, x, p)
  {
    MulAtLeast(p, q, 1);
    CongMod(Power(x, e), n);
    CongSym(Power(x, e), c, n);
    CongDivisor(c, Power(x, e), n, p, q);
    CongPower(c, Power(x, e), d, p);
    InverseExponents(x, p, e, d);
    CongTrans(y, Power(c, d), Power(Power(x, e), d), p);
    CongTrans(y, Power(Power(x, e), d), x, p);
  }

  /** Any number that meets the contract of `doPrivate` on `x^e mod n` is `x`. */
  lemma RoundTripNumbers(y: int, c: int, x: nat, n: int, e: nat, p: int, q: int, dp: nat, dq: nat, coeff: int)
    requires Numbers(n, e, p, q, dp, dq, coeff) && e > 0 && dp > 0 && dq > 0 && x < n && 0 <= y < n
    requires c == Power(x, e) % n && Cong(y, Power(c, dp), p) && Cong(y, Power(c, dq), q)
    ensures y == x
  {
    Undone(y, c, x, n, e, p, q, dp);
    Undone(y, c, x, n, e, q, p, dq);
    BothPrimes(y, x, p, q);
    CongUnique(y, x, n);
    DivUnique(y, n, 0, y);
  }

  /** Decryption after encryption is the identity on every message below the modulus. */
  method RoundTrip(key: Key, x: BigInteger) returns (y: BigInteger)
    requires key.Valid() && x.Valid() && 0 <= x.Value() < key.n.Value() && x != key.n
    ensures y.Valid() && y.Value() == x.Value()
  {
    var c := DoPublic(key, x);
    y := DoPrivate(key, c);
    RoundTripNumbers(y.Value(), c.Value(), x.Value(), key.n.Value(), key.e, key.p.Value(), key.q.Value(),
                     key.dmp1.Value(), key.dmq1.Value(), key.coeff.Value());
  }
}
