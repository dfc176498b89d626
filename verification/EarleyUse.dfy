/** The entries of a chart that take part in a parse of the goal. */
module EarleyUse {
  import opened EarleyGrammar
  import opened EarleyChart
  import opened EarleyParser

  function Append(a: Trees, b: Trees): Trees {
    match a
    case Nil => b
    case Cons(t, rest) => Cons(t, Append(rest, b))
  }

  function Len(ts: Trees): nat {
    match ts
    case Nil => 0
    case Cons(_, rest) => 1 + Len(rest)
  }

  /** The tree, whose tokens start at `s`, uses the entry of configuration `c` from `i` to `j`: a token, or the
      symbols of a rule up to a dot. */
  ghost predicate Uses(g: Parse, u: Tree, s: nat, c: nat, i: nat, j: nat)
    decreases u
  {
    match u
    case Token(x) => c == x && i == s && j == s + 1
    case Node(r, kids) => (exists a, b :: Stops(g, r, kids, a, b, s, c, i, j)) || AnyUses(g, kids, s, c, i, j)
  }

  /** The dot of rule `r` stands between the trees `a` and `b`. */
  ghost predicate Stops(g: Parse, r: nat, kids: Trees, a: Trees, b: Trees, s: nat, c: nat, i: nat, j: nat) {
    kids == Append(a, b) && r < |g.rules| && c == Dot(g.n, g.rules, r, Len(a)) && i == s && j == s + Widths(a)
  }

  ghost predicate AnyUses(g: Parse, kids: Trees, s: nat, c: nat, i: nat, j: nat)
    decreases kids
  {
    kids.Cons? && (Uses(g, kids.head, s, c, i, j) || AnyUses(g, kids.tail, s + Width(kids.head), c, i, j))
  }

  /** A derivation tree of the goal over the whole input. */
  ghost predicate Parses(g: Parse, u: Tree) {
    Derives(g.rules, g.toks, u, 0, 0) && Width(u) == |g.toks|
  }

  /** The entry takes part in a parse of the goal. */
  ghost predicate Useful(g: Parse, c: nat, i: nat, j: nat) {
    exists u :: Parses(g, u) && Uses(g, u, 0, c, i, j)
  }

  // ----- lists of trees

  lemma {:induction false} AppendDerives(rules: seq<Rule>, toks: seq<seq<nat>>, a: Trees, b: Trees, nts: seq<nat>, m: nat, i: nat)
    requires m <= |nts| && DerivesAll(rules, toks, a, nts[..m], i) && DerivesAll(rules, toks, b, nts[m..], i + Widths(a))
    ensures DerivesAll(rules, toks, Append(a, b), nts, i) && Widths(Append(a, b)) == Widths(a) + Widths(b) && Len(a) == m
    decreases a
  {
    match a
    case Nil => assert nts[..m] == [] && nts[m..] == nts;
    case Cons(t, rest) =>
      assert nts[1..][..m - 1] == nts[..m][1..] && nts[1..][m - 1..] == nts[m..];
      AppendDerives(rules, toks, rest, b, nts[1..], m - 1, i + Width(t));
  }

  lemma {:induction false} SplitDerives(rules: seq<Rule>, toks: seq<seq<nat>>, a: Trees, b: Trees, nts: seq<nat>, i: nat)
    requires DerivesAll(rules, toks, Append(a, b), nts, i)
    ensures Len(a) <= |nts| && DerivesAll(rules, toks, a, nts[..Len(a)], i) && DerivesAll(rules, toks, b, nts[Len(a)..], i + Widths(a))
    ensures Widths(Append(a, b)) == Widths(a) + Widths(b)
    decreases a
  {
    match a
    case Nil => assert nts[0..] == nts;
    case Cons(t, rest) =>
      SplitDerives(rules, toks, rest, b, nts[1..], i + Width(t));
      assert nts[1..][..Len(rest)] == nts[..Len(a)][1..] && nts[1..][Len(rest)..] == nts[Len(a)..];
  }

  lemma {:induction false} AppendSnoc(a: Trees, v: Tree, b: Trees)
    ensures Append(Snoc(a, v), b) == Append(a, Cons(v, b)) && Len(Snoc(a, v)) == Len(a) + 1
  {
    if a.Cons? { AppendSnoc(a.tail, v, b); }
  }

  lemma {:induction false} AppendNil(a: Trees)
    ensures Append(a, Nil) == a
  {
    if a.Cons? { AppendNil(a.tail); }
  }

  lemma {:induction false} AppendUses(g: Parse, a: Trees, v: Tree, b: Trees, s: nat, c: nat, i: nat, j: nat)
    requires Uses(g, v, s + Widths(a), c, i, j)
    ensures AnyUses(g, Append(a, Cons(v, b)), s, c, i, j)
    decreases a
  {
    if a.Cons? { AppendUses(g, a.tail, v, b, s + Width(a.head), c, i, j); }
  }

  lemma {:induction false} LenDerives(rules: seq<Rule>, toks: seq<seq<nat>>, ts: Trees, nts: seq<nat>, i: nat)
    requires DerivesAll(rules, toks, ts, nts, i)
    ensures Len(ts) == |nts|
    decreases ts
  {
    if ts.Cons? { LenDerives(rules, toks, ts.tail, nts[1..], i + Width(ts.head)); }
  }

  lemma DotUnique(n: nat, rules: seq<Rule>, r: nat, d: nat, q: nat, e: nat)
    requires r < |rules| && d <= |rules[r].rhs| && q < |rules| && e <= |rules[q].rhs| && Dot(n, rules, r, d) == Dot(n, rules, q, e)
    ensures r == q && d == e
  {
    if r < q { BaseMonotone(n, rules, r, q); } else if q < r { BaseMonotone(n, rules, q, r); }
  }

  /** A tree uses the entry at its own end. */
  lemma UsesOwn(g: Parse, v: Tree, nt: nat, k: nat)
    requires Derives(g.rules, g.toks, v, nt, k)
    ensures (v.Node? ==> v.rule < |g.rules|) && Uses(g, v, k, EnderOf(g.n, g.rules, v), k, k + Width(v))
  {
    if v.Node? {
      LenDerives(g.rules, g.toks, v.kids, g.rules[v.rule].rhs, k);
      AppendNil(v.kids);
      assert Stops(g, v.rule, v.kids, v.kids, Nil, k, EnderOf(g.n, g.rules, v), k, k + Width(v));
    }
  }

  // ----- another derivation of the part before the dot

  /** The entry of the dot before the last symbol, and the last symbol's own one. */
  ghost predicate UsesParts(g: Parse, u: Tree, s: nat, c: nat, i: nat, k: nat, j: nat, v: Tree) {
    c > 0 && (v.Node? ==> v.rule < |g.rules|) && Uses(g, u, s, c - 1, i, k) && Uses(g, u, s, EnderOf(g.n, g.rules, v), k, j)
  }

  /** The part of a rule before a dot, derived as the trees `ks` and the tree `v`. */
  ghost predicate Division(g: Parse, r: nat, d: nat, ks: Trees, v: Tree, c: nat, i: nat, k: nat, j: nat) {
    r < |g.rules| && d < |g.rules[r].rhs| && c == Dot(g.n, g.rules, r, d + 1) &&
    DerivesAll(g.rules, g.toks, ks, g.rules[r].rhs[..d], i) && k == i + Widths(ks) &&
    Derives(g.rules, g.toks, v, g.rules[r].rhs[d], k) && j == k + Width(v)
  }

  lemma {:induction false} Replace(g: Parse, u: Tree, nt: nat, s: nat, r: nat, d: nat, ks: Trees, v: Tree, c: nat, i: nat, k: nat, j: nat)
    returns (u': Tree)
    requires Derives(g.rules, g.toks, u, nt, s) && Uses(g, u, s, c, i, j) && Division(g, r, d, ks, v, c, i, k, j) && g.n < c
    requires forall x, y :: 0 <= x < |g.toks| && y in g.toks[x] ==> y < g.n
    ensures Derives(g.rules, g.toks, u', nt, s) && Width(u') == Width(u) && UsesParts(g, u', s, c, i, k, j, v)
    decreases u
  {
    match u
    case Token(_) => u' := u;
    case Node(q, kids) =>
      if a, b :| Stops(g, q, kids, a, b, s, c, i, j) {
        u' := ReplaceHere(g, u, nt, s, a, b, r, d, ks, v, c, i, k, j);
      } else {
        var kids' := ReplaceIn(g, kids, g.rules[q].rhs, s, r, d, ks, v, c, i, k, j);
        u' := Node(q, kids');
      }
  }

  lemma ReplaceHere(g: Parse, u: Tree, nt: nat, s: nat, a: Trees, b: Trees, r: nat, d: nat, ks: Trees, v: Tree, c: nat, i: nat, k: nat, j: nat)
    returns (u': Tree)
    requires Derives(g.rules, g.toks, u, nt, s) && u.Node? && Stops(g, u.rule, u.kids, a, b, s, c, i, j) && Division(g, r, d, ks, v, c, i, k, j)
    ensures Derives(g.rules, g.toks, u', nt, s) && Width(u') == Width(u) && UsesParts(g, u', s, c, i, k, j, v)
  {
    var q := u.rule;
    var rhs := g.rules[q].rhs;
    SplitDerives(g.rules, g.toks, a, b, rhs, s);
    DotUnique(g.n, g.rules, q, Len(a), r, d + 1);
    DerivesSnoc(g.rules, g.toks, ks, rhs[..d], i, v, rhs[d]);
    assert rhs[..d] + [rhs[d]] == rhs[..d + 1];
    AppendDerives(g.rules, g.toks, Snoc(ks, v), b, rhs, d + 1, s);
    AppendSnoc(ks, v, b);
    u' := Node(q, Append(ks, Cons(v, b)));
    LenDerives(g.rules, g.toks, ks, rhs[..d], i);
    assert Stops(g, q, u'.kids, ks, Cons(v, b), s, c - 1, i, k);
    UsesOwn(g, v, rhs[d], k);
    AppendUses(g, ks, v, b, s, EnderOf(g.n, g.rules, v), k, j);
  }

  lemma {:induction false} ReplaceIn(g: Parse, kids: Trees, nts: seq<nat>, s: nat, r: nat, d: nat, ks: Trees, v: Tree, c: nat, i: nat, k: nat, j: nat)
    returns (kids': Trees)
    requires DerivesAll(g.rules, g.toks, kids, nts, s) && AnyUses(g, kids, s, c, i, j) && Division(g, r, d, ks, v, c, i, k, j) && g.n < c
    requires forall x, y :: 0 <= x < |g.toks| && y in g.toks[x] ==> y < g.n
    ensures DerivesAll(g.rules, g.toks, kids', nts, s) && Widths(kids') == Widths(kids)
    ensures c > 0 && (v.Node? ==> v.rule < |g.rules|) && AnyUses(g, kids', s, c - 1, i, k) && AnyUses(g, kids', s, EnderOf(g.n, g.rules, v), k, j)
    decreases kids
  {
    if Uses(g, kids.head, s, c, i, j) {
      var u' := Replace(g, kids.head, nts[0], s, r, d, ks, v, c, i, k, j);
      kids' := Cons(u', kids.tail);
    } else {
      var rest := ReplaceIn(g, kids.tail, nts[1..], s + Width(kids.head), r, d, ks, v, c, i, k, j);
      kids' := Cons(kids.head, rest);
    }
  }

  // ----- the parts of a useful entry are useful

  /** A derivation for an entry at the end of a rule or a token. */
  lemma EnderDerivation(g: Parse, e: nat, nt: nat, k: nat, j: nat) returns (v: Tree)
    requires g.Ok() && g.After(e, nt) && g.Says(e, k, j)
    ensures Derives(g.rules, g.toks, v, nt, k) && j == k + Width(v) && (v.Node? ==> v.rule < |g.rules|) && EnderOf(g.n, g.rules, v) == e
  {
    Enders(g.n, g.rules, g.t, nt, e);
    if e < g.n {
      assert g.t.steps[e] == e - g.n;
      v := Token(e);
    } else {
      var r: nat, d: nat, kids: Trees :| DerivesTo(g.n, g.rules, g.toks, r, d, kids, e, k, j);
      EnderIsEnd(g.n, g.rules, g.t, nt, r, d);
      assert g.rules[r].rhs[..d] == g.rules[r].rhs;
      v := Node(r, kids);
    }
  }

  /** A derivation of what is before the dot, when a symbol is after it. */
  lemma DotDerivation(g: Parse, p: nat, nt: nat, i: nat, k: nat) returns (r: nat, d: nat, ks: Trees)
    requires g.Ok() && g.Before(p, nt) && g.Says(p, i, k)
    ensures r < |g.rules| && d < |g.rules[r].rhs| && g.rules[r].rhs[d] == nt && p == Dot(g.n, g.rules, r, d) && g.n <= p
    ensures DerivesAll(g.rules, g.toks, ks, g.rules[r].rhs[..d], i) && k == i + Widths(ks)
  {
    Predictors(g.n, g.rules, g.t, nt, p);
    assert g.n <= p;
    r, d, ks :| DerivesTo(g.n, g.rules, g.toks, r, d, ks, p, i, k);
    PredictorIsBefore(g.n, g.rules, g.t, nt, p, r, d);
  }

  lemma PartsUseful(g: Parse, c: nat, nt: nat, e: nat, i: nat, k: nat, j: nat)
    requires g.Ok() && c > 0 && Useful(g, c, i, j) && g.Before(c - 1, nt) && g.After(e, nt) && g.Says(c - 1, i, k) && g.Says(e, k, j)
    ensures Useful(g, c - 1, i, k) && Useful(g, e, k, j)
  {
    var r, d, ks := DotDerivation(g, c - 1, nt, i, k);
    var v := EnderDerivation(g, e, nt, k, j);
    assert c == Dot(g.n, g.rules, r, d + 1) && Division(g, r, d, ks, v, c, i, k, j);
    hide Layout, Over, Uses;
    var u :| Parses(g, u) && Uses(g, u, 0, c, i, j);
    var u' := Replace(g, u, 0, 0, r, d, ks, v, c, i, k, j);
    assert Parses(g, u');
  }

  lemma GoalUseful(g: Parse, e: nat)
    requires g.Ok() && g.After(e, 0) && g.Says(e, 0, |g.toks|)
    ensures Useful(g, e, 0, |g.toks|)
  {
    var v := EnderDerivation(g, e, 0, 0, |g.toks|);
    UsesOwn(g, v, 0, 0);
    assert Parses(g, v);
  }
}
