/** The three modular reducers behind one interface: classic division, Barrett and Montgomery. */
module Reducers {
  import opened JsInt
  import opened Digits
  import opened BigIntegers
  import opened Multiplication
  import opened Division
  import opened Modular
  import opened MontgomeryReduction
  import opened BarrettReduction

  datatype Reducer =
    | Classic(m: BigInteger)
    | Montgomery(m: BigInteger, mp: int)
    | Barrett(m: BigInteger, mu: BigInteger, r2: BigInteger, q3: BigInteger)
  {
    /** The objects a reduction writes to besides its result. */
    ghost function Scratch(): set<BigInteger> {
      if Barrett? then {r2, q3} else {}
    }

    /** The objects a reduction depends on. */
    ghost function Parts(): set<BigInteger> {
      if Barrett? then {m, mu, r2, q3} else {m}
    }

    ghost predicate Ready()
      reads m, if Barrett? then {mu} else {}
    {
      && m.Valid() && m.s == 0 && m.Value() > 0
      && (Montgomery? ==> m.t > 0 && m.digits[0] % 2 == 1 && 0 <= mp < DV && Cong(m.digits[0] * mp, -1, DV))
      && (Barrett? ==> BarrettReady(m, mu) && m.t + 4 <= DV && r2 !in {m, mu} && q3 !in {m, mu} && r2 != q3)
    }

    ghost function Modulus(): int
      requires Ready()
      reads m, if Barrett? then {mu} else {}
      ensures Modulus() > 0
    {
      m.Value()
    }

    /** The factor that `convert` puts on every residue. */
    ghost function Factor(): int
      reads m
    {
      if Montgomery? then P(m.t) else 1
    }

    /** `x` stands for the residue of `a`. */
    ghost predicate Represents(x: BigInteger, a: int)
      requires Ready()
      reads x, m, if Barrett? then {mu} else {}
    {
      x.Valid() && x.s == 0 && 0 <= x.Value() < Modulus() && Cong(x.Value(), a * Factor(), Modulus())
    }
  }

  /** An odd modulus lets a power of the base be cancelled. */
  lemma {:induction false} CancelPow2(a: int, b: int, k: nat, m: int)
    requires m > 0 && m % 2 == 1 && Cong(a * Pow2(k), b * Pow2(k), m)
    ensures Cong(a, b, m)
  {
    if k > 0 {
      var p := Pow2(k - 1);
      assert a * Pow2(k) == 2 * (a * p) && b * Pow2(k) == 2 * (b * p);
      CancelTwo(a * p, b * p, m);
      CancelPow2(a, b, k - 1, m);
    }
  }

  lemma CancelP(a: int, b: int, n: nat, m: int)
    requires m > 0 && m % 2 == 1 && Cong(a * P(n), b * P(n), m)
    ensures Cong(a, b, m)
  {
    PowDigits(n);
    CancelPow2(a, b, DB * n, m);
  }

  lemma LowestBit(m: seq<int>, t: nat, s: int)
    requires 0 < t <= |m|
    ensures V(m, 0, t, s) % 2 == m[0] % 2
  {
    LowestBitOf(m[0], V(m, 1, t, s));
  }

  lemma LowestBitOf(d: int, x: int)
    ensures (d + DV * x) % 2 == d % 2
  {}

  lemma OddValue(m: seq<int>, t: nat)
    requires 0 < t <= |m| && m[0] % 2 == 1
    ensures V(m, 0, t, 0) % 2 == 1
  {
    LowestBit(m, t, 0);
  }

  /** What a reduction makes of a product of two representatives. */
  lemma ProductRepresents(x: int, y: int, a: int, b: int, f: int, m: int)
    requires m > 0 && Cong(x, a * f, m) && Cong(y, b * f, m)
    ensures Cong(x * y, (a * b * f) * f, m)
  {
    CongMul(x, a * f, y, b * f, m);
    assert (a * f) * (b * f) == (a * b * f) * f;
  }

  lemma RemOfNonnegative(a: int, b: int)
    requires a >= 0 && b > 0
    ensures Rem(a, b) == a % b && Quot(a, b) == a / b
  {}

  /** `reduce`: the residue of `x` in the reducer's sense. */
  method Reduce(z: Reducer, x: BigInteger)
    requires z.Ready() && x !in z.Parts() && x.Valid() && x.s == 0 && 0 <= x.Value() < z.Modulus() * P(z.m.t)
    modifies x, z.Scratch()
    ensures x.Valid() && x.s == 0 && 0 <= x.Value() < z.Modulus()
    ensures Cong(x.Value() * z.Factor(), old(x.Value()), z.Modulus())
  {
    ghost var X, M := x.Value(), z.Modulus();
    LengthBound(z.m.digits, z.m.t, 0);
    match z {
      case Classic(m) =>
        DivRemTo(x, m, null, x);
        RemOfNonnegative(X, M);
        VFits(x.digits, 0, x.t, x.s);
      case Montgomery(m, mp) =>
        MontReduce(x, m, mp);
      case Barrett(m, mu, r2, q3) =>
        ProductWords(x.digits, x.t, m.t, M);
        BarrettReduce(x, m, mu, r2, q3);
    }
    if !z.Montgomery? {
      CongMod(X, M);
      CongSym(X, X % M, M);
    }
  }

  lemma ProductFits(x: int, y: int, M: int, p: int)
    requires 0 <= x < M && 0 <= y < M && M <= p
    ensures 0 <= x * y < M * p
  {
    MulBound(x, y, M - 1, M);
    MulAtLeast(M, p, M);
  }

  /** The reduced product represents the product. */
  lemma ReducedRepresents(z: Reducer, r: int, x: int, y: int, a: int, b: int)
    requires z.Ready() && Cong(x, a * z.Factor(), z.Modulus()) && Cong(y, b * z.Factor(), z.Modulus())
    requires Cong(r * z.Factor(), x * y, z.Modulus())
    ensures Cong(r, a * b * z.Factor(), z.Modulus())
  {
    var f, m := z.Factor(), z.Modulus();
    ProductRepresents(x, y, a, b, f, m);
    CongTrans(r * f, x * y, (a * b * f) * f, m);
    if z.Montgomery? {
      OddValue(z.m.digits, z.m.t);
      CancelP(r, a * b * f, z.m.t, m);
    }
  }

  /** `mulTo`: `r` gets the reduced product. */
  method MulTo(z: Reducer, x: BigInteger, y: BigInteger, r: BigInteger, ghost a: int, ghost b: int)
    requires z.Ready() && z.Represents(x, a) && z.Represents(y, b)
    requires r !in z.Parts() && r != x && r != y && x !in z.Scratch() && y !in z.Scratch()
    modifies r, z.Scratch()
    ensures z.Represents(r, a * b)
  {
    ghost var M := z.Modulus();
    LengthBound(z.m.digits, z.m.t, 0);
    ProductFits(x.Value(), y.Value(), M, P(z.m.t));
    MultiplyTo(x, y, r);
    VFits(r.digits, 0, r.t, r.s);
    Reduce(z, r);
    ReducedRepresents(z, r.Value(), x.Value(), y.Value(), a, b);
  }

  /** `sqrTo`: `r` gets the reduced square. */
  method SqrTo(z: Reducer, x: BigInteger, r: BigInteger, ghost a: int)
    requires z.Ready() && z.Represents(x, a)
    requires r !in z.Parts() && r != x && x !in z.Scratch()
    modifies r, z.Scratch()
    ensures z.Represents(r, a * a)
  {
    ghost var M := z.Modulus();
    LengthBound(z.m.digits, z.m.t, 0);
    ProductFits(x.Value(), x.Value(), M, P(z.m.t));
    SquareTo(x, r);
    VFits(r.digits, 0, r.t, r.s);
    Reduce(z, r);
    ReducedRepresents(z, r.Value(), x.Value(), x.Value(), a, a);
  }

  /** The residue of a negative number, from the one of its magnitude. */
  method FixSign(m: BigInteger, r: BigInteger, negative: bool)
    requires r != m && m.Valid() && m.s == 0 && r.Valid() && r.s == 0 && 0 <= r.Value() < m.Value()
    modifies r
    ensures r.Valid() && r.s == 0 && 0 <= r.Value() < m.Value()
    ensures Cong(r.Value(), if negative then -old(r.Value()) else old(r.Value()), m.Value())
  {
    ghost var v, M := r.Value(), m.Value();
    var zero := new BigInteger();
    var c := r.CompareTo(zero);
    CongRefl(v, M);
    if negative {
      CongIntro(M - v, -v, M, 1);
      CongRefl(-v, M);
    }
    if negative && c > 0 {
      m.SubTo(r, r);
      VFits(r.digits, 0, r.t, r.s);
    }
  }

  /** `this mod a`. */
  method Mod(self: BigInteger, m: BigInteger) returns (r: BigInteger)
    requires self.Valid() && m.Valid() && m.s == 0 && m.Value() > 0 && self != m
    ensures fresh(r) && r.Valid() && r.s == 0 && r.Value() == self.Value() % m.Value()
  {
    ghost var M := m.Value();
    r := new BigInteger();
    var p := MagnitudeOf(self);
    DivRemTo(p, m, null, r);
    RemOfNonnegative(p.Value(), M);
    VFits(r.digits, 0, r.t, r.s);
    FixSign(m, r, self.s < 0);
    ResidueOfSigned(self.Value(), M, r.Value());
  }

  lemma ResidueOfSigned(x: int, M: int, r: int)
    requires M > 0 && 0 <= r < M && Cong(r, if x < 0 then -(AbsInt(x) % M) else AbsInt(x) % M, M)
    ensures r == x % M
  {
    var v := AbsInt(x) % M;
    CongMod(AbsInt(x), M);
    CongSym(AbsInt(x), v, M);
    CongRefl(-1, M);
    CongMul(-1, -1, v, AbsInt(x), M);
    CongTrans(r, if x < 0 then -v else v, x, M);
    CongSym(r, x, M);
    CongUnique(x, r, M);
  }

  /** `montConvert`: `x*R mod m`. A zero `x` reaches the division with unclamped zero words. */
  method MontConvert(m: BigInteger, x: BigInteger) returns (r: BigInteger)
    requires m.Valid() && m.s == 0 && m.t > 0 && m.Value() > 0 && x.Valid() && x != m
    ensures fresh(r) && r.Valid() && r.s == 0 && 0 <= r.Value() < m.Value()
    ensures Cong(r.Value(), x.Value() * P(m.t), m.Value())
  {
    ghost var M, f := m.Value(), P(m.t);
    r := new BigInteger();
    var p := MagnitudeOf(x);
    ghost var a := p.Value();
    p.DLShiftTo(m.t, r);
    assert p.t == 0 ==> p.Value() == 0;
    assert a == 0 ==> f * a == 0;
    MulAtLeast(f, a, 0);
    DivRemTo(r, m, null, r);
    RemOfNonnegative(f * a, M);
    VFits(r.digits, 0, r.t, r.s);
    FixSign(m, r, x.s < 0);
    ScaledResidue(x.Value(), f, M, r.Value());
  }

  lemma ScaledResidue(x: int, f: int, M: int, r: int)
    requires M > 0 && Cong(r, if x < 0 then -(f * AbsInt(x) % M) else f * AbsInt(x) % M, M)
    ensures Cong(r, x * f, M)
  {
    var z := f * AbsInt(x);
    SignRule(f, x);
    assert x * f == if x < 0 then -z else z;
    SignedResidue(z, M, r, x < 0);
  }

  lemma SignedResidue(z: int, M: int, r: int, negative: bool)
    requires M > 0 && Cong(r, if negative then -(z % M) else z % M, M)
    ensures Cong(r, if negative then -z else z, M)
  {
    CongMod(z, M);
    CongSym(z, z % M, M);
    CongRefl(-1, M);
    CongMul(-1, -1, z % M, z, M);
    CongTrans(r, if negative then -(z % M) else z % M, if negative then -z else z, M);
  }

  /** `x` itself when it is a residue already, else its residue. */
  method ConvertPlain(z: Reducer, x: BigInteger) returns (r: BigInteger)
    requires z.Ready() && !z.Montgomery? && x.Valid() && x !in z.Parts()
    modifies z.Scratch()
    ensures (r == x || fresh(r)) && r.Valid() && r.s == 0 && r.Value() == x.Value() % z.Modulus()
  {
    ghost var M := z.Modulus();
    VFits(x.digits, 0, x.t, x.s);
    if x.s < 0 || (z.Barrett? && x.t > 2 * z.m.t) {
      r := Mod(x, z.m);
      return;
    }
    var c := x.CompareTo(z.m);
    if c < 0 {
      DivUnique(x.Value(), M, 0, x.Value());
      return x;
    }
    match z {
      case Classic(m) =>
        r := Mod(x, m);
      case Barrett(m, mu, r2, q3) =>
        r := new BigInteger();
        x.CopyTo(r);
        BarrettReduce(r, m, mu, r2, q3);
    }
  }

  /** `convert`. */
  method Convert(z: Reducer, x: BigInteger) returns (r: BigInteger)
    requires z.Ready() && x.Valid() && x !in z.Parts()
    modifies z.Scratch()
    ensures (r == x || fresh(r)) && z.Represents(r, x.Value())
  {
    if z.Montgomery? {
      r := MontConvert(z.m, x);
    } else {
      r := ConvertPlain(z, x);
      CongMod(x.Value(), z.Modulus());
      CongSym(x.Value(), r.Value(), z.Modulus());
    }
  }

  /** `revert`: back from the reducer's residues to plain ones. */
  method Revert(z: Reducer, x: BigInteger, ghost a: int) returns (r: BigInteger)
    requires z.Ready() && z.Represents(x, a) && x !in z.Parts()
    ensures (r == x || fresh(r)) && r.Valid() && r.s == 0 && r.Value() == a % z.Modulus()
  {
    ghost var M, f := z.Modulus(), z.Factor();
    LengthBound(z.m.digits, z.m.t, 0);
    match z {
      case Montgomery(m, mp) =>
        r := new BigInteger();
        x.CopyTo(r);
        MulAtLeast(M, f, 1);
        MontReduce(r, m, mp);
        CongTrans(r.Value() * f, x.Value(), a * f, M);
        OddValue(m.digits, m.t);
        CancelP(r.Value(), a, m.t, M);
      case _ =>
        r := x;
    }
    CongSym(r.Value(), a, M);
    CongUnique(a, r.Value(), M);
  }

  /** Conversion there and back is reduction. */
  method ConvertRevert(z: Reducer, x: BigInteger) returns (r: BigInteger)
    requires z.Ready() && x.Valid() && x !in z.Parts()
    modifies z.Scratch()
    ensures r.Valid() && r.s == 0 && r.Value() == x.Value() % z.Modulus()
  {
    var g := Convert(z, x);
    r := Revert(z, g, x.Value());
  }

  /** `isEven`. */
  method IsEven(x: BigInteger) returns (even: bool)
    requires x.WF()
    ensures even <==> x.Value() % 2 == 0
    ensures !even && x.s == 0 ==> x.t > 0 && x.digits[0] % 2 == 1
  {
    if x.t > 0 {
      LowestBit(x.digits, x.t, x.s);
    }
    even := (if x.t > 0 then Low(x.digits[0], 2) else x.s) == 0;
  }

  method NewMontgomery(m: BigInteger) returns (z: Reducer)
    requires m.Valid() && m.s == 0 && m.t > 0 && m.digits[0] % 2 == 1 && m.Value() > 0
    ensures z.Montgomery? && z.m == m && z.Ready()
  {
    var mp := InvDigit(m);
    z := Montgomery(m, mp);
  }
}
