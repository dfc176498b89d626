/** The in-place digit arithmetic of `BigInteger`. */
module BigIntegers {
  import opened JsInt
  import opened Digits

  const DM: int := DV - 1

  /** What a JavaScript array yields at an index that was never written: not a digit. */
  const HOLE: int := -1

  /** `a[i] = v` on a JavaScript array, which grows when `i` is past its end. */
  function Put(a: seq<int>, i: nat, v: int): (r: seq<int>)
    ensures |r| == if i < |a| then |a| else i + 1
    ensures r[i] == v
    ensures forall k :: 0 <= k < |a| && k != i ==> r[k] == a[k]
  {
    if i < |a| then a[i := v] else a + seq(i - |a|, _ => HOLE) + [v]
  }

  // ----- the multiply-accumulate kernel

  /** One step of `am3`: the new digit and the carry out. */
  function AmStep(x: int, d: int, w: int, c: int): (r: (int, int))
    requires 0 <= x < 2 * DV && 0 <= d < DV && 0 <= w < DV && 0 <= c < 3 * DV
    ensures r.0 + DV * r.1 == x * d + w + c
    ensures 0 <= r.0 < DV && 0 <= r.1 < 3 * DV
    ensures c <= x ==> r.1 <= x
  {
    var xl, xh := Low(x, 0x4000), Shr(x, 0x4000);
    var l, h := Low(d, 0x4000), Shr(d, 0x4000);
    AmPartBounds(xh, xl, h, l);
    var m := xh * l + h * xl;
    var l' := xl * l + Shl(Low(m, 0x4000), 0x4000) + w + c;
    SplitProduct(xh, xl, h, l);
    AmCarryBound(x, d, w, c);
    (Low(l', DV), Shr(l', DV) + Shr(m, 0x4000) + xh * h)
  }

  lemma SplitProduct(xh: int, xl: int, h: int, l: int)
    ensures (xh * 0x4000 + xl) * (h * 0x4000 + l) == (xh * h) * DV + (xh * l + h * xl) * 0x4000 + xl * l
  {}

  lemma AmPartBounds(xh: int, xl: int, h: int, l: int)
    requires 0 <= xh < 0x8000 && 0 <= xl < 0x4000 && 0 <= h < 0x4000 && 0 <= l < 0x4000
    ensures 0 <= xh * l + h * xl < 0x4000_0000
    ensures 0 <= xl * l < DV
  {
    MulBound(xh, l, 0x7fff, 0x3fff);
    MulBound(h, xl, 0x3fff, 0x3fff);
    MulBound(xl, l, 0x3fff, 0x3fff);
  }

  lemma AmCarryBound(x: int, d: int, w: int, c: int)
    requires 0 <= x < 2 * DV && 0 <= d < DV && 0 <= w < DV && 0 <= c < 3 * DV
    ensures 0 <= x * d + w + c < 3 * DV * DV
    ensures c <= x ==> x * d + w + c < DV * (x + 1)
  {
    MulBound(x, d, 2 * DV - 1, DV - 1);
    MulBound(x, d, x, DV - 1);
  }

  /** Moving one digit position across the loop invariant of `am3`. */
  lemma AmInvariant(w: seq<int>, j: nat, k: nat, r: (int, int), x: int, W: seq<int>, n: nat, A: seq<int>, i: nat, m: nat, c: int)
    requires j <= k < |w| && k < n <= |W| && i < m <= |A|
    requires r.0 + DV * r.1 == x * A[i] + W[k] + c
    ensures V(w[k := r.0], j, k + 1, r.1 + V(W, k + 1, n, 0) + x * V(A, i + 1, m, 0))
         == V(w, j, k, c + V(W, k, n, 0) + x * V(A, i, m, 0))
  {
    var hw, ha := V(W, k + 1, n, 0), V(A, i + 1, m, 0);
    VSnoc(w, w[k := r.0], j, k, r.1 + hw + x * ha);
    Distribute(x, A[i], ha);
  }

  lemma Distribute(x: int, a: int, b: int)
    ensures x * (a + DV * b) == x * a + DV * (x * b)
  {}

  /** Dropping the low `n` words rounds toward minus infinity. */
  lemma ShiftedValue(a: seq<int>, n: nat, t: nat, s: int)
    requires IsDigits(a, 0, t) && (s == 0 || s == -1)
    ensures V(a, 0, t, s) / P(n) == if n <= t then V(a, n, t, s) else s
  {
    if n <= t {
      VSplit(a, 0, n, t, s);
      VTop(a, 0, n, V(a, n, t, s));
      VBound(a, 0, n);
      DivUnique(V(a, 0, t, s), P(n), V(a, n, t, s), V(a, 0, n, 0));
    } else {
      VTop(a, 0, t, s);
      VBound(a, 0, t);
      PMonotone(t, n);
      DivUnique(V(a, 0, t, s), P(n), s, V(a, 0, t, s) - P(n) * s);
    }
  }

  // ----- addition and subtraction

  function Max(a: int, b: int): int {
    if a < b then b else a
  }

  function Signed(add: bool, x: int): int {
    if add then x else -x
  }

  /** What an operation that computes `n` words leaves: at most one word more, every word between
      `t` and `n` repeating the sign, and the words above untouched. */
  ghost predicate Framed(before: seq<int>, after: seq<int>, n: nat, t: nat, s: int) {
    && |after| >= |before| && |after| >= n && t <= n + 1
    && (forall k :: n < k < |before| ==> after[k] == before[k])
    && (t <= n < |before| ==> after[n] == before[n])
    && (forall k :: t <= k < n ==> after[k] == Low(s, DV))
  }

  /** Moving one digit position across the loop over the words both operands have. */
  lemma CommonInvariant(r: seq<int>, i: nat, T: seq<int>, A: seq<int>, m: nat, X: int, Y: int, add: bool, c: int, d: int, c': int)
    requires i <= |r| && i < m <= |T| && m <= |A|
    requires d + DV * c' == c + T[i] + Signed(add, A[i])
    ensures V(Put(r, i, d), 0, i + 1, c' + V(T, i + 1, m, X) + Signed(add, V(A, i + 1, m, Y)))
         == V(r, 0, i, c + V(T, i, m, X) + Signed(add, V(A, i, m, Y)))
  {
    VSnoc(r, Put(r, i, d), 0, i, c' + V(T, i + 1, m, X) + Signed(add, V(A, i + 1, m, Y)));
  }

  /** The same for the loop over the words only one operand has. */
  lemma RestInvariant(r: seq<int>, i: nat, A: seq<int>, n: nat, Y: int, add: bool, c: int, d: int, c': int)
    requires i <= |r| && i < n <= |A|
    requires d + DV * c' == c + Signed(add, A[i])
    ensures V(Put(r, i, d), 0, i + 1, c' + Signed(add, V(A, i + 1, n, Y)))
         == V(r, 0, i, c + Signed(add, V(A, i, n, Y)))
  {
    VSnoc(r, Put(r, i, d), 0, i, c' + Signed(add, V(A, i + 1, n, Y)));
  }

  // ----- comparison

  function Sign(x: int): int {
    if x < 0 then -1 else if x > 0 then 1 else 0
  }

  /** Numbers that agree above word `i` compare as their words at `i`. */
  lemma CompareAt(a: seq<int>, b: seq<int>, i: nat, t: nat, s: int)
    requires i < t && IsDigits(a, 0, t) && IsDigits(b, 0, t)
    requires forall k :: i < k < t ==> a[k] == b[k]
    requires a[i] > b[i]
    ensures V(a, 0, t, s) > V(b, 0, t, s)
  {
    var x, y := V(a, i, t, s), V(b, i, t, s);
    VFrame(a, b, i + 1, t, s);
    assert x == a[i] + DV * V(a, i + 1, t, s) > y;
    VSplit(a, 0, i, t, s);
    VSplit(b, 0, i, t, s);
    VTop(a, 0, i, x);
    VTop(b, 0, i, y);
    VBound(a, 0, i);
    VBound(b, 0, i);
    HigherTop(P(i), x, y);
  }

  lemma HigherTop(p: int, x: int, y: int)
    requires p > 0 && x > y
    ensures p * x >= p * y + p
  {
    MulAtLeast(p, x, y + 1);
  }

  /** A number without superfluous words is as large as its length says. */
  lemma LengthBound(a: seq<int>, t: nat, s: int)
    requires IsDigits(a, 0, t) && (s == 0 || s == -1) && (t > 0 ==> a[t - 1] != Low(s, DV))
    ensures s == 0 ==> 0 <= V(a, 0, t, s) < P(t) && (t > 0 ==> V(a, 0, t, s) >= P(t - 1))
    ensures s == -1 ==> -P(t) <= V(a, 0, t, s) < 0 && (t > 0 ==> V(a, 0, t, s) < -P(t - 1))
  {
    VTop(a, 0, t, s);
    VBound(a, 0, t);
    if t > 0 {
      VSnoc(a, a, 0, t - 1, s);
      VTop(a, 0, t - 1, a[t - 1] + DV * s);
      VBound(a, 0, t - 1);
      if s == 0 {
        MulAtLeast(P(t - 1), a[t - 1], 1);
      } else {
        MulAtLeast(P(t - 1), -2, a[t - 1] - DV);
      }
    }
  }

  /** Fewer words, smaller magnitude. */
  lemma LengthOrder(a: seq<int>, t: nat, b: seq<int>, u: nat, s: int)
    requires IsDigits(a, 0, t) && (s == 0 || s == -1) && (t > 0 ==> a[t - 1] != Low(s, DV))
    requires IsDigits(b, 0, u) && (u > 0 ==> b[u - 1] != Low(s, DV))
    requires t < u
    ensures s == 0 ==> V(a, 0, t, s) < V(b, 0, u, s)
    ensures s == -1 ==> V(a, 0, t, s) > V(b, 0, u, s)
  {
    LengthBound(a, t, s);
    LengthBound(b, u, s);
    PMonotone(t, u - 1);
  }

  // ----- shifting by bits

  /** Bits per digit. */
  const DB: nat := 28

  lemma PowSplit(bs: nat)
    requires bs <= DB
    ensures Pow2(bs) * Pow2(DB - bs) == DV
  {
    Pow2Add(bs, DB - bs);
    PowDB();
  }

  lemma PowDB()
    ensures Pow2(DB) == DV
  {
    Pow2Add(7, 7);
    assert Pow2(7) == 0x80;
    Pow2Add(14, 14);
  }

  /** A digit splits into the bits that a left shift pushes out and those it keeps. */
  lemma SplitDigit(d: int, b: int, cb: int)
    requires b * cb == DV && b > 0 && cb > 0 && 0 <= d < DV
    ensures 0 <= d / cb < b
    ensures 0 <= d % cb * b <= DV - b
    ensures b * d == DV * (d / cb) + d % cb * b
  {
    SplitParts(d, b, cb, d / cb, d % cb);
  }

  lemma SplitParts(d: int, b: int, cb: int, q: int, m: int)
    requires b * cb == DV && b > 0 && cb > 0 && 0 <= d < DV && d == cb * q + m && 0 <= m < cb
    ensures 0 <= q < b
    ensures 0 <= m * b <= DV - b
    ensures b * d == DV * q + m * b
  {
    MulAssoc(b, cb, q);
    Expand(b, cb * q, m);
    MulAtLeast(b, cb - 1, m);
    MulAtLeast(b, m, 0);
    if q >= b {
      MulAtLeast(cb, q, b);
    } else if q < 0 {
      MulAtLeast(cb, -1, q);
    }
  }

  lemma Expand(b: int, x: int, y: int)
    ensures b * (x + y) == b * x + b * y
  {}

  /** One step of `lShiftTo`: the carry into the next word and the words above it keep their weight. */
  lemma LShiftStep(d: int, b: int, cb: int, c: int, v: int, w: int)
    requires b * cb == DV && b > 0 && cb > 0 && 0 <= d < DV && DV * w + c == b * v && 0 <= c <= DV - b
    ensures 0 <= d / cb + c < DV
    ensures DV * (d / cb + c + DV * w) + d % cb * b == b * (d + DV * v)
  {
    SplitDigit(d, b, cb);
    Expand(b, d, DV * v);
    MulAssoc(b, DV, v);
  }

  /** The two assignments in the loop of `lShiftTo`. */
  function LShiftWord(d: int, b: int, cb: int, c: int, ghost bs: nat, ghost m: nat): (r: (int, int))
    requires b * cb == DV && b > 0 && cb > 0 && 0 <= d < DV && 0 <= c <= DV - b
    requires b == Pow2(bs) && c == m * b
    ensures r == (d / cb + c, d % cb * b)
    ensures 0 <= r.0 < DV && 0 <= r.1 <= DV - b
  {
    SplitDigit(d, b, cb);
    OrDisjoint(d / cb, m, bs);
    (Or(Shr(d, cb), c), Shl(Low(d, cb), b))
  }

  /** A digit put below the others. */
  lemma PutBelow(a: seq<int>, j: nat, top: nat, d: int, s: int)
    requires j < top && 0 <= d < DV && (j + 1 < top ==> IsDigits(a, j + 1, top))
    ensures IsDigits(Put(a, j, d), j, top)
    ensures V(Put(a, j, d), j, top, s) == d + DV * if j + 1 < top then V(a, j + 1, top, s) else s
  {
    if j + 1 < top {
      VFrame(a, Put(a, j, d), j + 1, top, s);
    }
  }

  /** The bits of the sign word that `lShiftTo` moves into the top word. */
  lemma ShiftSign(s: int, b: int, cb: int)
    requires b * cb == DV && b > 0 && cb > 0 && (s == 0 || s == -1)
    ensures Int32(s * b) && DV * s + Low(s * b, DV) == b * s && 0 <= Low(s * b, DV) <= DV - b
    ensures Low(s * b, DV) == (if s == 0 then 0 else cb - 1) * b
  {
    MulAtLeast(b, cb, 1);
    if s == -1 {
      DivUnique(s * b, DV, -1, DV - b);
      Expand(b, cb, -1);
    }
  }

  /** `DV^n` is `2^(DB*n)`. */
  lemma {:induction false} PowDigits(n: nat)
    ensures P(n) == Pow2(DB * n)
  {
    if n > 0 {
      PowDigits(n - 1);
      PowDB();
      Pow2Add(DB, DB * (n - 1));
    }
  }

  lemma PowShift(n: nat)
    ensures Pow2(n) == P(n / DB) * Pow2(n % DB)
  {
    PowDigits(n / DB);
    Pow2Add(DB * (n / DB), n % DB);
  }

  /** The words of a shifted number: zeros, the last carry, and the shifted words. */
  lemma ShiftedUp(r: seq<int>, ds: nat, top: nat, s: int, w: int)
    requires ds < top <= |r|
    requires forall k :: 0 <= k < ds ==> r[k] == 0
    requires r[ds] + DV * V(r, ds + 1, top, s) == w
    ensures V(r, 0, top, s) == P(ds) * w
  {
    VSplit(r, 0, ds, top, s);
    VZeros(r, 0, ds, w);
  }

  /** One step of `rShiftTo`: the low bits of the next word complete the word below it. */
  lemma RShiftStep(d: int, b: int, cb: int, u: int, x: int)
    requires b * cb == DV && b > 0 && cb > 0 && 0 <= d < DV && 0 <= u < cb
    ensures 0 <= d % b * cb && 0 <= u + d % b * cb < DV && 0 <= d / b < cb
    ensures u + cb * (d + DV * x) == (u + d % b * cb) + DV * (d / b + cb * x)
  {
    SplitDigit(d, cb, b);
    Expand(cb, d, DV * x);
    MulAssoc(cb, DV, x);
  }

  /** The assignment in the loop of `rShiftTo` that completes the word below. */
  function RShiftWord(u: int, d: int, b: int, cb: int, ghost cbs: nat): (r: int)
    requires b * cb == DV && b > 0 && cb == Pow2(cbs) && 0 <= u < cb && 0 <= d < DV
    ensures r == u + d % b * cb && 0 <= r < DV
  {
    SplitDigit(d, cb, b);
    OrDisjoint(u, d % b, cbs);
    Or(u, Shl(Low(d, b), cb))
  }

  /** Moving one digit position across the loop of `rShiftTo`. */
  lemma RShiftInvariant(r: seq<int>, k: nat, D: seq<int>, i: nat, t: nat, s: int, b: int, cb: int, cbs: nat)
    requires b * cb == DV && b > 0 && cb == Pow2(cbs)
    requires k < |r| && 0 <= r[k] < cb && i < t <= |D| && 0 <= D[i] < DV
    ensures 0 <= D[i] / b < cb
    ensures V(Put(Put(r, k, RShiftWord(r[k], D[i], b, cb, cbs)), k + 1, D[i] / b), 0, k + 1, D[i] / b + cb * V(D, i + 1, t, s))
         == V(r, 0, k, r[k] + cb * V(D, i, t, s))
  {
    RShiftStep(D[i], b, cb, r[k], V(D, i + 1, t, s));
    VSnoc(r, Put(Put(r, k, RShiftWord(r[k], D[i], b, cb, cbs)), k + 1, D[i] / b), 0, k, D[i] / b + cb * V(D, i + 1, t, s));
  }

  /** The quotient that `rShiftTo` builds, from its lowest word up. */
  lemma RShiftQuotient(d: int, x: int, b: int, cb: int)
    requires b * cb == DV && b > 0 && cb > 0 && 0 <= d < DV
    ensures (d + DV * x) / b == d / b + cb * x
  {
    Expand(b, d / b, cb * x);
    MulAssoc(b, cb, x);
    DivUnique(d + DV * x, b, d / b + cb * x, d % b);
  }

  lemma SignShift(s: int, b: int)
    requires b > 0 && (s == 0 || s == -1)
    ensures s / b == s
  {
    DivUnique(s, b, s, s - b * s);
  }

  /** Dropping words, then bits. */
  lemma DivTwice(x: int, p: int, b: int)
    requires p > 0 && b > 0
    ensures p * b > 0 && x / (p * b) == x / p / b
  {
    var q, u := x / p, x % p;
    var k, v := q / b, q % b;
    MulAtLeast(p, b, 1);
    MulAssoc(p, b, k);
    Expand(p, b * k, v);
    MulAtLeast(p, b - 1, v);
    MulAtLeast(p, v, 0);
    Expand(p, b, -1);
    DivUnique(x, p * b, k, p * v + u);
  }

  /** The top word receives the bits of the sign. */
  lemma RShiftSign(u: int, s: int, b: int, cb: int)
    requires b * cb == DV && b > 0 && cb > 0 && 0 <= u < cb && (s == 0 || s == -1)
    ensures Low(s, b) * cb == (if s == 0 then 0 else DV - cb) && 0 <= u + Low(s, b) * cb < DV
    ensures u + cb * s == u + Low(s, b) * cb + DV * s
  {
    if s == -1 {
      DivUnique(-1, b, -1, b - 1);
      Expand(cb, b, -1);
    }
  }

  class BigInteger {
    var digits: seq<int>
    var t: nat
    var s: int

    /** The words in use are digits; `s` is the sign word. */
    ghost predicate WF()
      reads this
    {
      IsDigits(digits, 0, t) && (s == 0 || s == -1)
    }

    /** Well-formed without superfluous high words: what every public operation leaves. */
    ghost predicate Valid()
      reads this
    {
      WF() && (t > 0 ==> digits[t - 1] != Low(s, DV))
    }

    ghost function Value(): int
      requires WF()
      reads this
    {
      V(digits, 0, t, s)
    }

    /** `nbi()`. */
    constructor ()
      ensures Valid() && Value() == 0 && digits == [] && t == 0 && s == 0
    {
      digits, t, s := [], 0, 0;
    }

    /** `am3`: add `x` times `n` words of this from word `i` to the words of `w` from `j`. */
    method Am(i: nat, x: int, w: BigInteger, j: nat, c0: int, n: nat) returns (c: int)
      requires 0 <= x < 2 * DV && 0 <= c0 < 3 * DV
      requires IsDigits(digits, i, i + n) && IsDigits(w.digits, j, j + n)
      requires w == this ==> i == j
      modifies w`digits
      ensures |w.digits| == |old(w.digits)| && IsDigits(w.digits, j, j + n)
      ensures forall k :: 0 <= k < |w.digits| && !(j <= k < j + n) ==> w.digits[k] == old(w.digits)[k]
      ensures 0 <= c < 3 * DV && (c0 <= x ==> c <= x)
      ensures V(w.digits, j, j + n, c) == c0 + V(old(w.digits), j, j + n, 0) + x * V(old(digits), i, i + n, 0)
    {
      ghost var W, A, jEnd, iEnd := w.digits, digits, j + n, i + n;
      ghost var total := c0 + V(W, j, jEnd, 0) + x * V(A, i, iEnd, 0);
      c := c0;
      var i', j', n' := i, j, n;
      while n' > 0
        invariant 0 <= n' <= n && i' == i + n - n' && j' == j + n - n' && |w.digits| == |W| && |digits| == |A|
        invariant 0 <= c < 3 * DV && (c0 <= x ==> c <= x)
        invariant forall q :: 0 <= q < |W| && !(j <= q < j') ==> w.digits[q] == W[q]
        invariant forall q :: i' <= q < |A| ==> digits[q] == A[q]
        invariant IsDigits(w.digits, j, j')
        invariant V(w.digits, j, j', c + V(W, j', jEnd, 0) + x * V(A, i', iEnd, 0)) == total
      {
        var r := AmStep(x, digits[i'], w.digits[j'], c);
        AmInvariant(w.digits, j, j', r, x, W, jEnd, A, i', iEnd, c);
        w.digits := w.digits[j' := r.0];
        c, i', j', n' := r.1, i' + 1, j' + 1, n' - 1;
      }
    }

    /** Clear the words below `n`, from the highest one down. */
    method FillZero(n: int)
      modifies this`digits
      ensures |digits| == Max(|old(digits)|, n)
      ensures forall k :: 0 <= k < n ==> digits[k] == 0
      ensures forall k :: 0 <= k && n <= k < |digits| ==> digits[k] == old(digits)[k]
    {
      var i := n;
      while i > 0
        invariant i <= n && (n >= 0 ==> i >= 0)
        invariant |digits| == if i < n then Max(|old(digits)|, n) else |old(digits)|
        invariant forall k :: 0 <= k && i <= k < n ==> digits[k] == 0
        invariant forall k :: 0 <= k && n <= k < |digits| ==> digits[k] == old(digits)[k]
      {
        i := i - 1;
        digits := Put(digits, i, 0);
      }
    }

    /** Drop the high words that only repeat the sign. */
    method Clamp()
      requires WF()
      modifies this`t
      ensures Valid() && Value() == old(Value()) && t <= old(t)
      ensures forall k :: t <= k < old(t) ==> digits[k] == Low(s, DV)
    {
      var c := Low(s, DV);
      while t > 0 && digits[t - 1] == c
        invariant WF() && Value() == old(Value()) && t <= old(t)
        invariant forall k :: t <= k < old(t) ==> digits[k] == c
      {
        VSnoc(digits, digits, 0, t - 1, s);
        t := t - 1;
      }
    }

    method CopyTo(r: BigInteger)
      requires WF()
      modifies r
      ensures r.WF() && r.t == old(t) && r.s == old(s) && r.Value() == old(Value())
      ensures forall k :: 0 <= k < r.t ==> r.digits[k] == old(digits)[k]
      ensures old(Valid()) ==> r.Valid()
    {
      ghost var D := digits;
      var i := t;
      while i > 0
        invariant 0 <= i <= t && t == old(t) && s == old(s) && |digits| >= |D|
        invariant i < t ==> |r.digits| >= t
        invariant forall k :: 0 <= k < t ==> digits[k] == D[k]
        invariant forall k :: i <= k < t ==> r.digits[k] == D[k]
      {
        i := i - 1;
        r.digits := Put(r.digits, i, digits[i]);
      }
      VFrame(D, r.digits, 0, t, s);
      r.t := t;
      r.s := s;
    }

    /** Below -1 the source names a variable that does not exist. */
    method FromInt(x: int)
      requires -1 <= x < DV
      modifies this
      ensures Valid() && Value() == x
    {
      t := 1;
      s := if x < 0 then -1 else 0;
      if x > 0 {
        digits := Put(digits, 0, x);
        assert V(digits, 1, 1, 0) == 0;
      } else {
        t := 0;
      }
    }

    /** The loop that moves every word up by `n` places, from the top down. A write below index 0
        only makes a property of the array object, which is no array element. */
    method MoveWords(n: int, r: BigInteger)
      requires WF() && t + n >= 0 && (n < 0 ==> r != this)
      modifies r`digits
      ensures |r.digits| >= |old(r.digits)| && (t > 0 ==> |r.digits| >= t + n)
      ensures forall k :: 0 <= k < t + n && n <= k ==> r.digits[k] == old(digits)[k - n]
      ensures forall k :: t + n <= k < |old(r.digits)| ==> r.digits[k] == old(r.digits)[k]
    {
      ghost var D := digits;
      var i := t;
      while i > 0
        invariant 0 <= i <= t && |digits| >= |D| && |r.digits| >= |old(r.digits)|
        invariant i < t ==> |r.digits| >= t + n
        invariant forall k :: 0 <= k < i ==> digits[k] == D[k]
        invariant forall k :: 0 <= k && i + n <= k < t + n ==> r.digits[k] == D[k - n]
        invariant forall k :: 0 <= k && t + n <= k < |old(r.digits)| ==> r.digits[k] == old(r.digits)[k]
      {
        i := i - 1;
        if i + n >= 0 {
          r.digits := Put(r.digits, i + n, digits[i]);
        }
      }
    }

    /** `r = this << n*DB`. Division asks for `n == -t` when its dividend is zero: no words remain. */
    method DLShiftTo(n: int, r: BigInteger)
      requires WF() && t + n >= 0 && (n < 0 ==> r != this)
      modifies r
      ensures r.WF() && r.t == old(t) + n && r.s == old(s) && |r.digits| >= |old(r.digits)|
      ensures n >= 0 ==> r.Value() == P(n) * old(Value())
      ensures forall k :: 0 <= k < n ==> r.digits[k] == 0
      ensures forall k :: 0 <= k < r.t && n <= k ==> r.digits[k] == old(digits)[k - n]
      ensures forall k :: r.t <= k < |old(r.digits)| ==> r.digits[k] == old(r.digits)[k]
      ensures old(Valid()) && old(t) > 0 ==> r.Valid()
    {
      ghost var D := digits;
      MoveWords(n, r);
      r.FillZero(n);
      if n >= 0 {
        VZeros(r.digits, 0, n, V(D, 0, t, s));
        VSplit(r.digits, 0, n, t + n, s);
        VShift(r.digits, n, D, 0, t, s);
      }
      r.s, r.t := s, t + n;
    }

    /** `r = this >> n*DB`. */
    method DRShiftTo(n: nat, r: BigInteger)
      requires WF()
      modifies r
      ensures r.WF() && r.t == (if old(t) > n then old(t) - n else 0) && r.s == old(s)
      ensures n <= old(t) ==> r.Value() == V(old(digits), n, old(t), old(s))
      ensures r.Value() == old(Value()) / P(n) && |r.digits| >= |old(r.digits)|
      ensures forall k :: 0 <= k < r.t ==> r.digits[k] == old(digits)[k + n]
      ensures forall k :: r.t <= k < |old(r.digits)| ==> r.digits[k] == old(r.digits)[k]
      ensures old(Valid()) ==> r.Valid()
    {
      ghost var D := digits;
      var i := n;
      while i < t
        invariant n <= i && (i <= t || i == n) && |digits| >= |D| && |r.digits| >= |old(r.digits)|
        invariant t == old(t) && s == old(s) && |r.digits| >= i - n
        invariant forall k :: i <= k < t ==> digits[k] == D[k]
        invariant forall k :: 0 <= k < i - n ==> r.digits[k] == D[k + n]
        invariant forall k :: 0 <= k && t - n <= k < |old(r.digits)| ==> r.digits[k] == old(r.digits)[k]
      {
        r.digits := Put(r.digits, i - n, digits[i]);
        i := i + 1;
      }
      ShiftedValue(D, n, t, s);
      r.t, r.s := if t > n then t - n else 0, s;
      if n < old(t) {
        VShift(r.digits, 0, D, n, r.t, r.s);
      }
    }

    /** The loop of `addTo` and `subTo` over the words that both operands have. */
    method CombineCommon(a: BigInteger, add: bool, r: BigInteger, m: nat, ghost X: int, ghost Y: int) returns (c: int)
      requires WF() && a.WF() && m <= t && m <= a.t
      modifies r`digits
      ensures -1 <= c <= 1 && IsDigits(r.digits, 0, m) && |r.digits| >= |old(r.digits)|
      ensures V(r.digits, 0, m, c + X + Signed(add, Y)) == V(old(digits), 0, m, X) + Signed(add, V(old(a.digits), 0, m, Y))
      ensures forall k :: m <= k < |old(r.digits)| ==> r.digits[k] == old(r.digits)[k]
    {
      ghost var T, A := digits, a.digits;
      var i := 0;
      c := 0;
      while i < m
        invariant 0 <= i <= m && -1 <= c <= 1 && |r.digits| >= |old(r.digits)|
        invariant m <= |digits| && m <= |a.digits| && IsDigits(r.digits, 0, i)
        invariant forall k :: i <= k < m ==> digits[k] == T[k] && a.digits[k] == A[k]
        invariant forall k :: i <= k < |old(r.digits)| ==> r.digits[k] == old(r.digits)[k]
        invariant V(r.digits, 0, i, c + V(T, i, m, X) + Signed(add, V(A, i, m, Y))) == V(T, 0, m, X) + Signed(add, V(A, 0, m, Y))
      {
        var c' := c + digits[i] + Signed(add, a.digits[i]);
        CommonInvariant(r.digits, i, T, A, m, X, Y, add, c, Low(c', DV), Shr(c', DV));
        r.digits := Put(r.digits, i, Low(c', DV));
        i, c := i + 1, Shr(c', DV);
      }
    }

    /** The loop of `addTo` and `subTo` over the words that only one operand has. */
    method CombineRest(add: bool, r: BigInteger, i0: nat, c0: int, ghost Y: int) returns (c: int)
      requires WF() && i0 <= t && -2 <= c0 <= 2 && IsDigits(r.digits, 0, i0)
      modifies r`digits
      ensures -2 <= c <= 2 && IsDigits(r.digits, 0, t) && |r.digits| >= |old(r.digits)|
      ensures V(r.digits, 0, t, c + Signed(add, Y)) == V(old(r.digits), 0, i0, c0 + Signed(add, V(old(digits), i0, t, Y)))
      ensures forall k :: t <= k < |old(r.digits)| ==> r.digits[k] == old(r.digits)[k]
    {
      ghost var A := digits;
      var i := i0;
      c := c0;
      while i < t
        invariant i0 <= i <= t && -2 <= c <= 2 && |r.digits| >= |old(r.digits)|
        invariant t <= |digits| && IsDigits(r.digits, 0, i)
        invariant forall k :: i <= k < t ==> digits[k] == A[k]
        invariant forall k :: i <= k < |old(r.digits)| ==> r.digits[k] == old(r.digits)[k]
        invariant V(r.digits, 0, i, c + Signed(add, V(A, i, t, Y))) == V(old(r.digits), 0, i0, c0 + Signed(add, V(A, i0, t, Y)))
      {
        var c' := c + Signed(add, digits[i]);
        RestInvariant(r.digits, i, A, t, Y, add, c, Low(c', DV), Shr(c', DV));
        r.digits := Put(r.digits, i, Low(c', DV));
        i, c := i + 1, Shr(c', DV);
      }
    }

    /** The end of `addTo` and `subTo`: the words below `i` and the carry `c` become a number. */
    method Finish(i: nat, c: int)
      requires IsDigits(digits, 0, i) && -DV < c < DV
      modifies this
      ensures Valid() && Value() == V(old(digits), 0, i, c)
      ensures Framed(old(digits), digits, i, t, s)
    {
      s := if c < 0 then -1 else 0;
      if c < -1 {
        digits := Put(digits, i, DV + c);
        VSnoc(old(digits), digits, 0, i, -1);
        t := i + 1;
      } else if c > 0 {
        digits := Put(digits, i, c);
        VSnoc(old(digits), digits, 0, i, 0);
        t := i + 1;
      } else {
        t := i;
      }
      Clamp();
    }

    /** The rest of `addTo` and `subTo` once the common words are done: this is the longer operand. */
    method CombineTail(add: bool, r: BigInteger, i0: nat, c0: int)
      requires WF() && i0 <= t && -2 <= c0 <= 2 && IsDigits(r.digits, 0, i0)
      modifies r
      ensures r.Valid() && r.Value() == V(old(r.digits), 0, i0, c0 + Signed(add, V(old(digits), i0, old(t), old(s))))
      ensures Framed(old(r.digits), r.digits, old(t), r.t, r.s)
    {
      var c := CombineRest(add, r, i0, c0, s);
      r.Finish(t, c + Signed(add, s));
    }

    /** `addTo` and `subTo`, which differ in nothing but the sign of the second operand. */
    method CombineTo(a: BigInteger, add: bool, r: BigInteger)
      requires WF() && a.WF()
      modifies r
      ensures r.Valid() && r.Value() == old(Value()) + Signed(add, old(a.Value()))
      ensures Framed(old(r.digits), r.digits, Max(old(t), old(a.t)), r.t, r.s)
    {
      var m := if a.t < t then a.t else t;
      VSplit(digits, 0, m, t, s);
      VSplit(a.digits, 0, m, a.t, a.s);
      ghost var T, A := digits, a.digits;
      var c := CombineCommon(a, add, r, m, V(T, m, t, s), V(A, m, a.t, a.s));
      VFrame(T, digits, m, t, s);
      VFrame(A, a.digits, m, a.t, a.s);
      if a.t < t {
        CombineTail(true, r, m, c + Signed(add, a.s));
      } else {
        a.CombineTail(add, r, m, c + s);
      }
    }

    method AddTo(a: BigInteger, r: BigInteger)
      requires WF() && a.WF()
      modifies r
      ensures r.Valid() && r.Value() == old(Value()) + old(a.Value())
    {
      CombineTo(a, true, r);
    }

    method SubTo(a: BigInteger, r: BigInteger)
      requires WF() && a.WF()
      modifies r
      ensures r.Valid() && r.Value() == old(Value()) - old(a.Value())
      ensures Framed(old(r.digits), r.digits, Max(old(t), old(a.t)), r.t, r.s)
    {
      CombineTo(a, false, r);
    }

    /** Orders by length before digits, whatever the sign: two negative numbers of different
        length come out in the wrong order, and no others do. */
    method CompareTo(a: BigInteger) returns (r: int)
      requires WF() && a.WF() && (s == a.s && t != a.t ==> Valid() && a.Valid())
      ensures s == a.s == -1 && t != a.t ==> Sign(r) == -Sign(Value() - a.Value()) != 0
      ensures !(s == a.s == -1 && t != a.t) ==> Sign(r) == Sign(Value() - a.Value())
    {
      r := s - a.s;
      if r != 0 {
        VFits(digits, 0, t, s);
        VFits(a.digits, 0, a.t, a.s);
        return;
      }
      var i := t;
      r := i - a.t;
      if r != 0 {
        if t < a.t {
          LengthOrder(digits, t, a.digits, a.t, s);
        } else {
          LengthOrder(a.digits, a.t, digits, t, s);
        }
        return;
      }
      while i > 0
        invariant 0 <= i <= t
        invariant forall k :: i <= k < t ==> digits[k] == a.digits[k]
      {
        i := i - 1;
        r := digits[i] - a.digits[i];
        if r != 0 {
          if r > 0 {
            CompareAt(digits, a.digits, i, t, s);
          } else {
            CompareAt(a.digits, digits, i, t, s);
          }
          return;
        }
      }
      VFrame(digits, a.digits, 0, t, s);
      return 0;
    }

    /** The number -1 has no word and -2 has one, and -1 comes out below -2. */
    static method ComparesWrongly() returns (a: BigInteger, b: BigInteger, r: int)
      ensures a.Valid() && a.Value() == -1 && b.Valid() && b.Value() == -2 && r < 0
    {
      a := new BigInteger();
      a.s := -1;
      b := new BigInteger();
      b.digits, b.t, b.s := [DV - 2], 1, -1;
      assert V(b.digits, 1, 1, -1) == -1;
      r := a.CompareTo(b);
    }

    /** `BigInteger.ZERO.subTo(this, r)`. */
    method NegateTo(r: BigInteger)
      requires WF()
      modifies r
      ensures r.Valid() && r.Value() == -old(Value())
    {
      var zero := new BigInteger();
      zero.SubTo(this, r);
    }

    method Negate() returns (r: BigInteger)
      requires WF()
      ensures fresh(r) && r.Valid() && r.Value() == -Value()
    {
      r := new BigInteger();
      NegateTo(r);
    }

    method Abs() returns (r: BigInteger)
      requires WF()
      ensures r.WF() && (r == this || fresh(r)) && (s == 0 ==> r == this) && (s < 0 ==> fresh(r) && r.Valid())
      ensures r.s == 0 && r.Value() == (if s < 0 then -Value() else Value()) >= 0
    {
      VTop(digits, 0, t, s);
      VBound(digits, 0, t);
      if s < 0 {
        r := Negate();
        VFits(r.digits, 0, r.t, r.s);
      } else {
        r := this;
      }
    }

    /** One round of the loop of `lShiftTo`: the word and the carry above it give a word of `r` and a carry. */
    method ShiftWordUp(r: BigInteger, i: nat, j: nat, b: int, cb: int, c: int, ghost bs: nat, ghost m: nat, ghost top: nat, ghost v: int, ghost up: int)
      returns (c': int, ghost m': nat, ghost up': int)
      requires b * cb == DV && b > 0 && cb > 0 && b == Pow2(bs) && i < |digits| && 0 <= digits[i] < DV
      requires 0 <= c <= DV - b && c == m * b && DV * up + c == b * v
      requires j < top && if j + 1 < top then IsDigits(r.digits, j + 1, top) && up == V(r.digits, j + 1, top, s) else up == s
      modifies r`digits
      ensures |r.digits| >= |old(r.digits)| && forall k :: 0 <= k < |old(r.digits)| && k != j ==> r.digits[k] == old(r.digits)[k]
      ensures IsDigits(r.digits, j, top) && up' == V(r.digits, j, top, s)
      ensures 0 <= c' <= DV - b && c' == m' * b && DV * up' + c' == b * (old(digits[i]) + DV * v)
    {
      hide Put, Pow2, V, IsDigits;
      var word := digits[i];
      LShiftStep(word, b, cb, c, v, up);
      var (d, carry) := LShiftWord(word, b, cb, c, bs, m);
      PutBelow(r.digits, j, top, d, s);
      r.digits := Put(r.digits, j, d);
      c', m', up' := carry, Low(word, cb), d + DV * up;
    }

    /** The loop of `lShiftTo`: every word shifted left by `bs` bits, into `r` above word `ds`. */
    method ShiftWordsUp(r: BigInteger, ds: nat, b: int, cb: int, ghost bs: nat) returns (c: int)
      requires WF() && b * cb == DV && b > 0 && cb > 0 && b == Pow2(bs)
      modifies r`digits
      ensures (t > 0 ==> |r.digits| >= t + ds + 1) && |r.digits| >= |old(r.digits)|
      ensures t + ds + 1 <= |r.digits| ==> IsDigits(r.digits, ds + 1, t + ds + 1)
      ensures 0 <= c < DV
      ensures DV * (if t == 0 then s else V(r.digits, ds + 1, t + ds + 1, s)) + c == b * V(old(digits), 0, t, s)
      ensures forall k :: t + ds + 1 <= k < |old(r.digits)| ==> r.digits[k] == old(r.digits)[k]
    {
      ghost var D, R := digits, r.digits;
      ShiftSign(s, b, cb);
      c := Low(Shl(s, b), DV);
      ghost var m: nat, up, top := if s == 0 then 0 else cb - 1, s, t + ds + 1;
      var i := t;
      while i > 0
        invariant 0 <= i <= t && |digits| >= |D| && |r.digits| >= |R|
        invariant if i < t then IsDigits(r.digits, i + ds + 1, top) && up == V(r.digits, i + ds + 1, top, s) else up == s
        invariant 0 <= c <= DV - b && c == m * b && DV * up + c == b * V(D, i, t, s)
        invariant forall k :: 0 <= k < i ==> digits[k] == D[k]
        invariant forall k :: top <= k < |R| ==> r.digits[k] == R[k]
      {
        i := i - 1;
        c, m, up := ShiftWordUp(r, i, i + ds + 1, b, cb, c, bs, m, top, V(D, i + 1, t, s), up);
      }
    }

    /** `r = this << n`. */
    method LShiftTo(n: nat, r: BigInteger)
      requires WF()
      modifies r
      ensures r.Valid() && r.s == old(s) && r.Value() == Pow2(n) * old(Value())
      ensures Framed([], r.digits, old(t) + n / DB + 1, r.t, r.s)
    {
      var bs, ds := n % DB, n / DB;
      PowSplit(bs);
      ShiftUp(ds, Pow2(bs), Pow2(DB - bs), bs, r);
      PowShift(n);
      Assoc(P(ds), Pow2(bs), old(Value()));
    }

    method ShiftUp(ds: nat, b: int, cb: int, ghost bs: nat, r: BigInteger)
      requires WF() && b * cb == DV && b > 0 && cb > 0 && b == Pow2(bs)
      modifies r
      ensures r.Valid() && r.s == old(s) && r.Value() == P(ds) * (b * old(Value()))
      ensures Framed([], r.digits, old(t) + ds + 1, r.t, r.s)
    {
      var c := ShiftWordsUp(r, ds, b, cb, bs);
      ghost var R := r.digits;
      r.FillZero(ds);
      r.digits := Put(r.digits, ds, c);
      r.t, r.s := t + ds + 1, s;
      r.FinishShift(ds, R, b * old(Value()));
    }

    /** The words are in place; drop the superfluous ones. */
    method FinishShift(ghost ds: nat, ghost R: seq<int>, ghost w: int)
      requires ds < t <= |digits| && (s == 0 || s == -1)
      requires forall k :: 0 <= k < ds ==> digits[k] == 0
      requires 0 <= digits[ds] < DV
      requires ds + 1 < t ==> IsDigits(R, ds + 1, t) && (forall k :: ds < k < t ==> digits[k] == R[k])
      requires digits[ds] + DV * (if ds + 1 == t then s else V(R, ds + 1, t, s)) == w
      modifies this`t
      ensures Valid() && Value() == P(ds) * w && Framed([], digits, old(t), t, s)
    {
      if ds + 1 < t {
        VFrame(digits, R, ds + 1, t, s);
      }
      ShiftedUp(digits, ds, t, s, w);
      Clamp();
    }

    /** The loop of `rShiftTo` and the word above it. */
    method ShiftWordsDown(r: BigInteger, ds: nat, b: int, cb: int, ghost cbs: nat)
      requires WF() && ds < t && b * cb == DV && b > 0 && cb == Pow2(cbs)
      modifies r`digits
      ensures IsDigits(r.digits, 0, t - ds)
      ensures V(r.digits, 0, t - ds, s) == old(digits)[ds] / b + cb * V(old(digits), ds + 1, t, s)
    {
      hide Put, Pow2;
      ghost var D := digits;
      ghost var Q := D[ds] / b + cb * V(D, ds + 1, t, s);
      SplitDigit(D[ds], cb, b);
      r.digits := Put(r.digits, 0, Shr(digits[ds], b));
      assert V(r.digits, 0, 0, Q) == Q;
      hide V;
      var i := ds + 1;
      var k := 0;
      while i < t
        invariant ds < i <= t && k == i - ds - 1 && t <= |digits| && k < |r.digits|
        invariant IsDigits(r.digits, 0, k) && 0 <= r.digits[k] < cb
        invariant V(r.digits, 0, k, r.digits[k] + cb * V(D, i, t, s)) == Q
        invariant forall q :: i <= q < t ==> digits[q] == D[q]
      {
        RShiftInvariant(r.digits, k, D, i, t, s, b, cb, cbs);
        r.digits := Put(r.digits, k, RShiftWord(r.digits[k], digits[i], b, cb, cbs));
        r.digits := Put(r.digits, k + 1, Shr(digits[i], b));
        i, k := i + 1, k + 1;
      }
      r.CompleteTop(k, s, b, cb, cbs);
    }

    /** The sign bits that a shift within words moves into the top word. */
    method CompleteTop(k: nat, sign: int, b: int, cb: int, ghost cbs: nat)
      requires k < |digits| && IsDigits(digits, 0, k) && 0 <= digits[k] < cb
      requires b * cb == DV && b > 0 && cb == Pow2(cbs) && (sign == 0 || sign == -1)
      modifies this`digits
      ensures IsDigits(digits, 0, k + 1)
      ensures V(digits, 0, k + 1, sign) == V(old(digits), 0, k, old(digits)[k] + cb * sign)
    {
      RShiftSign(digits[k], sign, b, cb);
      if b > 1 {
        OrDisjoint(digits[k], Low(sign, b), cbs);
        digits := Put(digits, k, Or(digits[k], Shl(Low(sign, b), cb)));
      }
      VSnoc(old(digits), digits, 0, k, sign);
    }

    /** `r = this >> n`, rounding toward minus infinity. */
    method RShiftTo(n: nat, r: BigInteger)
      requires WF()
      modifies r
      ensures r.Valid() && r.Value() == old(Value()) / Pow2(n)
    {
      ghost var D := digits;
      r.s := s;
      var bs, ds := n % DB, n / DB;
      PowShift(n);
      DivTwice(old(Value()), P(ds), Pow2(bs));
      ShiftedValue(D, ds, t, s);
      if ds >= t {
        r.t := 0;
        assert V(D, t, t, s) == s;
        SignShift(s, Pow2(bs));
        return;
      }
      PowSplit(bs);
      ShiftDown(ds, Pow2(bs), Pow2(DB - bs), DB - bs, r);
    }

    method ShiftDown(ds: nat, b: int, cb: int, ghost cbs: nat, r: BigInteger)
      requires WF() && ds < t && b * cb == DV && b > 0 && cb == Pow2(cbs) && r.s == s
      modifies r
      ensures r.Valid() && r.Value() == V(old(digits), ds, old(t), old(s)) / b
    {
      ShiftWordsDown(r, ds, b, cb, cbs);
      RShiftQuotient(old(digits)[ds], V(old(digits), ds + 1, t, s), b, cb);
      r.t := t - ds;
      r.Clamp();
    }
  }
}
