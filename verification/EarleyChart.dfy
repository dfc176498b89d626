/** What the chart of the Earley benchmark means: its entries and the derivation trees. */
module EarleyChart {
  import opened EarleyGrammar

  /** Whether there is an entry at position `j` for configuration `c` started at position `i`. */
  type Chart = (int, int, int) -> bool

  predicate In(ch: Chart, j: int, c: int, i: int) {
    0 <= j && 0 <= c && 0 <= i && ch(j, c, i)
  }

  /** The trees `kids` derive the symbols before the dot of configuration `c` from the tokens `i` to `j`. */
  ghost predicate DerivesTo(n: nat, rules: seq<Rule>, toks: seq<seq<nat>>, r: nat, d: nat, kids: Trees, c: nat, i: nat, j: nat) {
    r < |rules| && d <= |rules[r].rhs| && c == Dot(n, rules, r, d) &&
    DerivesAll(rules, toks, kids, rules[r].rhs[..d], i) && j == i + Widths(kids)
  }

  /** What an entry claims: the symbols before the dot derive the tokens in between. */
  ghost predicate Claim(n: nat, rules: seq<Rule>, toks: seq<seq<nat>>, c: nat, i: nat, j: nat) {
    (c < n && i < |toks| && c in toks[i] && j == i + 1) ||
    exists r: nat, d: nat, kids: Trees :: DerivesTo(n, rules, toks, r, d, kids, c, i, j)
  }

  /** There is a derivation of `nt` from the tokens `i` to `j`. */
  ghost predicate Derivable(rules: seq<Rule>, toks: seq<seq<nat>>, nt: nat, i: nat, j: nat) {
    exists t :: Derives(rules, toks, t, nt, i) && i + Width(t) == j
  }

  // ----- the steps of the parser keep the claims true

  lemma ClaimStart(n: nat, rules: seq<Rule>, t: Tables, toks: seq<seq<nat>>, nt: nat, s: nat, j: nat)
    requires Layout(n, rules, t) && nt < n && s in t.starters[nt]
    ensures Claim(n, rules, toks, s, j, j) && s < |t.steps|
  {
    StartsAre(n, rules, nt, |rules|, s);
    var r :| 0 <= r < |rules| && rules[r].head == nt && s == Base(n, rules, r);
    BaseMonotone(n, rules, r, |rules|);
    assert DerivesAll(rules, toks, Nil, rules[r].rhs[..0], j) && s == Dot(n, rules, r, 0);
    assert DerivesTo(n, rules, toks, r, 0, Nil, s, j, j);
  }

  lemma ClaimEnd(n: nat, rules: seq<Rule>, t: Tables, toks: seq<seq<nat>>, nt: nat, e: nat, i: nat, j: nat)
    requires Layout(n, rules, t) && nt < n && e in t.enders[nt] && Claim(n, rules, toks, e, i, j)
    ensures Derivable(rules, toks, nt, i, j)
  {
    Enders(n, rules, t, nt, e);
    if e < n {
      assert t.steps[e] == e - n;
      assert Derives(rules, toks, Token(nt), nt, i);
    } else {
      var r: nat, d: nat, kids: Trees :| DerivesTo(n, rules, toks, r, d, kids, e, i, j);
      EnderIsEnd(n, rules, t, nt, r, d);
      assert rules[r].rhs[..d] == rules[r].rhs;
      assert Derives(rules, toks, Node(r, kids), nt, i);
    }
  }

  lemma Enders(n: nat, rules: seq<Rule>, t: Tables, nt: nat, e: nat)
    requires Layout(n, rules, t) && nt < n
    ensures e in t.enders[nt] <==> e < |t.steps| && t.steps[e] == nt - n
  {
    assert ListedFor(t.enders, t.steps, |t.steps|, -(n as int), nt, e);
  }

  lemma Predictors(n: nat, rules: seq<Rule>, t: Tables, nt: nat, p: nat)
    requires Layout(n, rules, t) && nt < n
    ensures p in t.predictors[nt] <==> p < |t.steps| && t.steps[p] == nt
  {
    assert ListedFor(t.predictors, t.steps, |t.steps|, 0, nt, p);
  }

  lemma DotStep(n: nat, rules: seq<Rule>, t: Tables, r: nat, d: nat)
    requires Layout(n, rules, t) && r < |rules| && d <= |rules[r].rhs|
    ensures n <= Dot(n, rules, r, d) < |t.steps|
    ensures t.steps[Dot(n, rules, r, d)] == if d < |rules[r].rhs| then rules[r].rhs[d] else rules[r].head - n
  {
  }

  lemma EnderIsEnd(n: nat, rules: seq<Rule>, t: Tables, nt: nat, r: nat, d: nat)
    requires Layout(n, rules, t) && nt < n && r < |rules| && d <= |rules[r].rhs| && Dot(n, rules, r, d) in t.enders[nt]
    ensures d == |rules[r].rhs| && rules[r].head == nt
  {
    Enders(n, rules, t, nt, Dot(n, rules, r, d));
    DotStep(n, rules, t, r, d);
  }

  lemma PredictorIsBefore(n: nat, rules: seq<Rule>, t: Tables, nt: nat, p: nat, r: nat, d: nat)
    requires Layout(n, rules, t) && nt < n && p in t.predictors[nt] && r < |rules| && d <= |rules[r].rhs| && p == Dot(n, rules, r, d)
    requires Over(n, rules)
    ensures d < |rules[r].rhs| && rules[r].rhs[d] == nt && p + 1 < |t.steps|
  {
    Predictors(n, rules, t, nt, p);
    DotStep(n, rules, t, r, d);
    if d < |rules[r].rhs| { BaseMonotone(n, rules, r, |rules|); }
  }

  /** Moving the dot of `p` over a symbol that has been derived. */
  lemma ClaimMove(n: nat, rules: seq<Rule>, t: Tables, toks: seq<seq<nat>>, nt: nat, p: nat, i: nat, k: nat, j: nat)
    requires Layout(n, rules, t) && Over(n, rules) && nt < n && p in t.predictors[nt]
    requires Claim(n, rules, toks, p, i, k) && Derivable(rules, toks, nt, k, j)
    ensures Claim(n, rules, toks, p + 1, i, j) && p + 1 < |t.steps|
  {
    Predictors(n, rules, t, nt, p);
    assert n <= p;
    var r: nat, d: nat, kids: Trees :| DerivesTo(n, rules, toks, r, d, kids, p, i, k);
    PredictorIsBefore(n, rules, t, nt, p, r, d);
    var u :| Derives(rules, toks, u, nt, k) && k + Width(u) == j;
    DerivesSnoc(rules, toks, kids, rules[r].rhs[..d], i, u, nt);
    assert rules[r].rhs[..d] + [nt] == rules[r].rhs[..d + 1];
    assert p + 1 == Dot(n, rules, r, d + 1);
    assert DerivesTo(n, rules, toks, r, d + 1, Snoc(kids, u), p + 1, i, j);
  }

  // ----- a closed chart has an entry for every derivation

  /** The chart is closed under the steps of the parser. */
  ghost predicate Closed(n: nat, t: Tables, toks: seq<seq<nat>>, ch: Chart)
    requires |t.starters| == |t.predictors| == n
  {
    (0 < n ==> forall s :: s in t.starters[0] ==> In(ch, 0, s, 0)) &&
    (forall j, c, i, s :: In(ch, j, c, i) && c < |t.steps| && 0 <= t.steps[c] < n && s in t.starters[t.steps[c]] ==> In(ch, j, s, j)) &&
    (forall i, nt :: 0 <= i < |toks| && nt in toks[i] ==> In(ch, i + 1, nt, i)) &&
    (forall j, e, k: nat, p, i :: In(ch, j, e, k) && In(ch, k, p, i) && e < |t.steps| && 0 <= t.steps[e] + n < n && 0 <= p && p in t.predictors[t.steps[e] + n] ==>
      In(ch, j, p + 1, i))
  }

  ghost predicate Predicted(t: Tables, ch: Chart, nt: nat, i: nat)
    requires nt < |t.starters|
  {
    forall s :: s in t.starters[nt] ==> In(ch, i, s, i)
  }

  /** The configuration at the end of the rule or token of a tree. */
  function EnderOf(n: nat, rules: seq<Rule>, u: Tree): nat
    requires u.Node? ==> u.rule < |rules|
  {
    match u
    case Token(x) => x
    case Node(r, _) => Dot(n, rules, r, |rules[r].rhs|)
  }

  lemma {:induction false} Completeness(n: nat, rules: seq<Rule>, t: Tables, toks: seq<seq<nat>>, ch: Chart, u: Tree, nt: nat, i: nat)
    returns (e: nat)
    requires Layout(n, rules, t) && Over(n, rules) && Closed(n, t, toks, ch) && nt < n && Predicted(t, ch, nt, i)
    requires Derives(rules, toks, u, nt, i)
    ensures e in t.enders[nt] && In(ch, i + Width(u), e, i) && e == EnderOf(n, rules, u)
    decreases u
  {
    match u
    case Token(_) =>
      e := nt;
      Enders(n, rules, t, nt, e);
    case Node(r, kids) =>
      StartsAre(n, rules, nt, |rules|, Base(n, rules, r));
      assert rules[r].rhs[0..|rules[r].rhs|] == rules[r].rhs && Dot(n, rules, r, 0) == Base(n, rules, r);
      DotStep(n, rules, t, r, |rules[r].rhs|);
      e := Dot(n, rules, r, |rules[r].rhs|);
      Enders(n, rules, t, nt, e);
      Walk(n, rules, t, toks, ch, kids, r, 0, |rules[r].rhs|, i, i);
  }

  /** The dot of rule `r` goes on from `d` to `m` over the trees `kids`. */
  lemma {:induction false} Walk(n: nat, rules: seq<Rule>, t: Tables, toks: seq<seq<nat>>, ch: Chart, kids: Trees, r: nat, d: nat, m: nat, i: nat, j: nat)
    requires Layout(n, rules, t) && Over(n, rules) && Closed(n, t, toks, ch)
    requires r < |rules| && d <= m <= |rules[r].rhs| && DerivesAll(rules, toks, kids, rules[r].rhs[d..m], j)
    requires In(ch, j, Dot(n, rules, r, d), i)
    ensures In(ch, j + Widths(kids), Dot(n, rules, r, m), i)
    decreases kids
  {
    if kids.Cons? {
      var c, nt := Dot(n, rules, r, d), rules[r].rhs[d];
      DotStep(n, rules, t, r, d);
      Predictors(n, rules, t, nt, c);
      assert |t.starters| == n;
      hide Layout;
      var e := Completeness(n, rules, t, toks, ch, kids.head, nt, j);
      Enders(n, rules, t, nt, e);
      var j' := j + Width(kids.head);
      assert In(ch, j', e, j) && In(ch, j, c, i);
      assert In(ch, j', c + 1, i) && c + 1 == Dot(n, rules, r, d + 1);
      assert rules[r].rhs[d..m][1..] == rules[r].rhs[d + 1..m];
      Walk(n, rules, t, toks, ch, kids.tail, r, d + 1, m, i, j');
    }
  }
}
