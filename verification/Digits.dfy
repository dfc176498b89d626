/** Numbers as sequences of 28-bit digits, least significant digit first. */
module Digits {

  /** The digit base fixed by `setupEngine(am3, 28)`. */
  const DV: int := 0x1000_0000

  /** The entries of `a` from `i` up to `j` are digits. */
  predicate IsDigits(a: seq<int>, i: nat, j: nat) {
    j <= |a| && forall k :: i <= k < j ==> 0 <= a[k] < DV
  }

  /** `a[i] + a[i+1]*DV + ... + top*DV^(j-i)`. A sign word and a pending carry are both a `top`. */
  ghost function V(a: seq<int>, i: nat, j: nat, top: int): int
    requires j <= |a|
    decreases j - i
  {
    if i >= j then top else a[i] + DV * V(a, i + 1, j, top)
  }

  /** `DV^n`. */
  ghost function P(n: nat): (p: int)
    ensures p > 0
  {
    if n == 0 then 1 else DV * P(n - 1)
  }

  lemma {:induction false} PAdd(a: nat, b: nat)
    ensures P(a + b) == P(a) * P(b)
  {
    if a > 0 {
      PAdd(a - 1, b);
      Assoc(DV, P(a - 1), P(b));
    }
  }

  lemma Assoc(a: int, b: int, c: int)
    ensures (a * b) * c == a * (b * c)
  {}

  lemma {:induction false} PMonotone(a: nat, b: nat)
    requires a <= b
    ensures P(a) <= P(b)
  {
    if a < b {
      PMonotone(a, b - 1);
    }
  }

  /** A number splits at any digit. */
  lemma {:induction false} VSplit(a: seq<int>, i: nat, m: nat, j: nat, top: int)
    requires i <= m <= j <= |a|
    ensures V(a, i, j, top) == V(a, i, m, V(a, m, j, top))
    decreases m - i
  {
    if i < m {
      VSplit(a, i + 1, m, j, top);
    }
  }

  /** The value is a matter of the digits alone, wherever they lie. */
  lemma {:induction false} VShift(a: seq<int>, i: nat, b: seq<int>, j: nat, n: nat, top: int)
    requires i + n <= |a| && j + n <= |b|
    requires forall k :: i <= k < i + n ==> a[k] == b[k - i + j]
    ensures V(a, i, i + n, top) == V(b, j, j + n, top)
    decreases n
  {
    if n > 0 {
      VShift(a, i + 1, b, j + 1, n - 1, top);
    }
  }

  lemma {:induction false} VFrame(a: seq<int>, b: seq<int>, i: nat, j: nat, top: int)
    requires i <= j <= |a| && j <= |b|
    requires forall k :: i <= k < j ==> a[k] == b[k]
    ensures V(a, i, j, top) == V(b, i, j, top)
    decreases j - i
  {
    if i < j {
      VFrame(a, b, i + 1, j, top);
    }
  }

  /** Appending the digit `b[j]` to a prefix that `b` shares with `a`. */
  lemma VSnoc(a: seq<int>, b: seq<int>, i: nat, j: nat, top: int)
    requires i <= j <= |a| && j < |b|
    requires forall k :: i <= k < j ==> a[k] == b[k]
    ensures V(b, i, j + 1, top) == V(a, i, j, b[j] + DV * top)
  {
    VSplit(b, i, j, j + 1, top);
    assert V(b, j + 1, j + 1, top) == top;
    VFrame(a, b, i, j, b[j] + DV * top);
  }

  lemma {:induction false} VTop(a: seq<int>, i: nat, j: nat, top: int)
    requires i <= j <= |a|
    ensures V(a, i, j, top) == V(a, i, j, 0) + P(j - i) * top
    decreases j - i
  {
    if i < j {
      VTop(a, i + 1, j, top);
      Assoc(DV, P(j - i - 1), top);
    }
  }

  lemma {:induction false} VBound(a: seq<int>, i: nat, j: nat)
    requires i <= j && IsDigits(a, i, j)
    ensures 0 <= V(a, i, j, 0) < P(j - i)
    decreases j - i
  {
    if i < j {
      VBound(a, i + 1, j);
    }
  }

  lemma {:induction false} VZeros(a: seq<int>, i: nat, j: nat, top: int)
    requires i <= j <= |a|
    requires forall k :: i <= k < j ==> a[k] == 0
    ensures V(a, i, j, top) == P(j - i) * top
    decreases j - i
  {
    if i < j {
      VZeros(a, i + 1, j, top);
      Assoc(DV, P(j - i - 1), top);
    }
  }

  /** The value tells the top word's sign, and whether there is a top word at all. */
  lemma VFits(a: seq<int>, i: nat, j: nat, top: int)
    requires i <= j && IsDigits(a, i, j)
    ensures 0 <= V(a, i, j, top) < P(j - i) <==> top == 0
    ensures V(a, i, j, top) < 0 <==> top < 0
  {
    VTop(a, i, j, top);
    VBound(a, i, j);
    if top >= 1 {
      MulAtLeast(P(j - i), top, 1);
    } else if top <= -1 {
      MulAtLeast(P(j - i), -1, top);
    }
  }

  lemma MulAtLeast(p: int, x: int, y: int)
    requires p >= 0 && x >= y
    ensures p * x >= p * y
  {}

  lemma MulBound(a: int, b: int, p: int, q: int)
    requires 0 <= a <= p && 0 <= b <= q
    ensures 0 <= a * b <= p * q
  {
    assert a * b <= p * b <= p * q;
  }

  lemma DivUnique(x: int, p: int, q: int, r: int)
    requires p > 0 && x == p * q + r && 0 <= r < p
    ensures x / p == q && x % p == r
  {
    var q', r' := x / p, x % p;
    assert p * (q - q') == r' - r;
    if q > q' {
      MulAtLeast(p, q - q', 1);
    } else if q < q' {
      MulAtLeast(p, -1, q - q');
    }
  }

  /** Carrying one unit of `DV` from a word into the next. */
  lemma CarryStep(a: seq<int>, b: seq<int>, j: nat, n: nat)
    requires j + 1 < n <= |a| && |b| == |a| && b[j] == a[j] - DV && b[j + 1] == a[j + 1] + 1
    requires forall k :: 0 <= k < |a| && k != j && k != j + 1 ==> b[k] == a[k]
    ensures V(b, 0, n, 0) == V(a, 0, n, 0)
  {
    VFrame(a, b, j + 2, n, 0);
    var rest := V(a, j + 2, n, 0);
    assert V(a, j, n, 0) == a[j] + DV * (a[j + 1] + DV * rest);
    assert V(b, j, n, 0) == b[j] + DV * (b[j + 1] + DV * rest);
    VSplit(a, 0, j, n, 0);
    VSplit(b, 0, j, n, 0);
    VFrame(a, b, 0, j, V(a, j, n, 0));
  }
}
