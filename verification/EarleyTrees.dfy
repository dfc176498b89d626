/** The derivation trees that the Earley benchmark reads off the kept states, and their number. */
module EarleyTrees {
  import opened Common
  import opened EarleyGrammar
  import opened EarleyChart
  import opened EarleyParser
  import S = EarleySets

  /** The trees for the dot in one place, with one more tree for the symbol after it. */
  function Extend(p: Tree, u: Tree): Tree {
    match p
    case Token(_) => p
    case Node(r, kids) => Node(r, Snoc(kids, u))
  }

  /** `l4` runs over the trees before, `l3` over those of the last symbol; each result is put in front. */
  function ExtendAll(ps: seq<Tree>, u: Tree, acc: seq<Tree>): seq<Tree>
    decreases |ps|
  {
    if ps == [] then acc else ExtendAll(ps[1..], u, [Extend(ps[0], u)] + acc)
  }

  function Cross(ps: seq<Tree>, us: seq<Tree>, acc: seq<Tree>): seq<Tree>
    decreases |us|
  {
    if us == [] then acc else Cross(ps, us[1..], ExtendAll(ps, us[0], acc))
  }

  /** The rule that starts with configuration `c`. */
  function RuleAt(n: nat, rules: seq<Rule>, c: nat, q: nat): nat
    requires q <= |rules|
  {
    if q == 0 then 0 else if Base(n, rules, q - 1) == c then q - 1 else RuleAt(n, rules, c, q - 1)
  }

  // ----- the trees

  /** `deriv-trees`: the trees of configuration `c` from position `i` to `j`, to a recursion depth of
      at most `fuel`. The lists of positions are those of the kept states `vs`. */
  ghost function TreesOf(g: Parse, vs: seq<S.View>, c: nat, i: nat, j: nat, fuel: nat): Option<seq<Tree>>
    decreases fuel, 0, 0
  {
    if fuel == 0 then None
    else if c < |g.t.names| && g.t.names[c].Some? then Some([if c < g.n then Token(c) else Node(RuleAt(g.n, g.rules, c, |g.rules|), Nil)])
    else if c == 0 || c > |g.t.steps| || !(0 <= g.t.steps[c - 1] < |g.t.enders|) then None
    else OverEnders(g, vs, c, i, j, g.t.enders[g.t.steps[c - 1]], [], fuel - 1)
  }

  ghost function OverEnders(g: Parse, vs: seq<S.View>, c: nat, i: nat, j: nat, l: seq<nat>, acc: seq<Tree>, fuel: nat): Option<seq<Tree>>
    requires c > 0
    decreases fuel, 2, |l|
  {
    if l == [] then Some(acc)
    else if !(j < |vs| && l[0] < |vs[j].done|) then None
    else
      match OverStarts(g, vs, c, i, j, l[0], vs[j].done[l[0]], acc, fuel)
      case None => None
      case Some(acc') => OverEnders(g, vs, c, i, j, l[1..], acc', fuel)
  }

  ghost function OverStarts(g: Parse, vs: seq<S.View>, c: nat, i: nat, j: nat, e: nat, ks: seq<nat>, acc: seq<Tree>, fuel: nat): Option<seq<Tree>>
    requires c > 0
    decreases fuel, 1, |ks|
  {
    if ks == [] then Some(acc)
    else
      var k := ks[0];
      if k >= i && k < |vs| && vs[k].Has(c - 1, i) then
        match TreesOf(g, vs, c - 1, i, k, fuel)
        case None => None
        case Some(ps) =>
          match TreesOf(g, vs, e, k, j, fuel)
          case None => None
          case Some(us) => OverStarts(g, vs, c, i, j, e, ks[1..], Cross(ps, us, acc), fuel)
      else OverStarts(g, vs, c, i, j, e, ks[1..], acc, fuel)
  }

  // ----- their number

  /** `nb-deriv-trees`. */
  ghost function CountOf(g: Parse, vs: seq<S.View>, c: nat, i: nat, j: nat, fuel: nat): Option<nat>
    decreases fuel, 0, 0
  {
    if fuel == 0 then None
    else if c < g.n || (0 < c <= |g.t.steps| && g.t.steps[c - 1] < 0) then Some(1)
    else if c == 0 || c > |g.t.steps| || !(0 <= g.t.steps[c - 1] < |g.t.enders|) then None
    else CountEnders(g, vs, c, i, j, g.t.enders[g.t.steps[c - 1]], 0, fuel - 1)
  }

  ghost function CountEnders(g: Parse, vs: seq<S.View>, c: nat, i: nat, j: nat, l: seq<nat>, m: nat, fuel: nat): Option<nat>
    requires c > 0
    decreases fuel, 2, |l|
  {
    if l == [] then Some(m)
    else if !(j < |vs| && l[0] < |vs[j].done|) then None
    else
      match CountStarts(g, vs, c, i, j, l[0], vs[j].done[l[0]], m, fuel)
      case None => None
      case Some(m') => CountEnders(g, vs, c, i, j, l[1..], m', fuel)
  }

  ghost function CountStarts(g: Parse, vs: seq<S.View>, c: nat, i: nat, j: nat, e: nat, ks: seq<nat>, m: nat, fuel: nat): Option<nat>
    requires c > 0
    decreases fuel, 1, |ks|
  {
    if ks == [] then Some(m)
    else
      var k := ks[0];
      if k >= i && k < |vs| && vs[k].Has(c - 1, i) then
        match CountOf(g, vs, c - 1, i, k, fuel)
        case None => None
        case Some(a) =>
          match CountOf(g, vs, e, k, j, fuel)
          case None => None
          case Some(b) => CountStarts(g, vs, c, i, j, e, ks[1..], m + a * b, fuel)
      else CountStarts(g, vs, c, i, j, e, ks[1..], m, fuel)
  }

  function Length<T>(o: Option<seq<T>>): Option<nat> {
    match o case None => None case Some(s) => Some(|s|)
  }

  lemma {:induction false} ExtendAllLength(ps: seq<Tree>, u: Tree, acc: seq<Tree>)
    ensures |ExtendAll(ps, u, acc)| == |ps| + |acc|
    decreases |ps|
  {
    if ps != [] { ExtendAllLength(ps[1..], u, [Extend(ps[0], u)] + acc); }
  }

  lemma {:induction false} CrossLength(ps: seq<Tree>, us: seq<Tree>, acc: seq<Tree>)
    ensures |Cross(ps, us, acc)| == |acc| + |ps| * |us|
    decreases |us|
  {
    if us != [] {
      ExtendAllLength(ps, us[0], acc);
      CrossLength(ps, us[1..], ExtendAll(ps, us[0], acc));
      OneMore(|ps|, |us|);
    }
  }

  lemma OneMore(a: nat, b: nat)
    requires b > 0
    ensures a * b == a + a * (b - 1)
  {
  }

  /** A configuration has a name exactly when it is a token or the one before it ends a rule. */
  lemma NamedStarts(g: Parse, c: nat)
    requires g.Ok() && c < g.Confs()
    ensures |g.t.names| == g.Confs() && (g.t.names[c].Some? <==> c < g.n || (0 < c && g.t.steps[c - 1] < 0))
  {
    if c >= g.n {
      var r, d := Locate(g.n, g.rules, |g.rules|, c);
      DotStep(g.n, g.rules, g.t, r, d);
      assert g.t.names[Dot(g.n, g.rules, r, d)].Some? <==> d == 0;
      if d > 0 {
        DotStep(g.n, g.rules, g.t, r, d - 1);
        assert c - 1 == Dot(g.n, g.rules, r, d - 1);
      } else if r > 0 {
        DotStep(g.n, g.rules, g.t, r - 1, |g.rules[r - 1].rhs|);
        assert c - 1 == Dot(g.n, g.rules, r - 1, |g.rules[r - 1].rhs|);
        assert g.rules[r - 1].head < g.n;
      }
    }
  }

  /** The counter agrees with the tree builder, and either both have an answer or neither has. */
  lemma {:induction false} CountIsLength(g: Parse, vs: seq<S.View>, c: nat, i: nat, j: nat, fuel: nat)
    requires g.Ok() && c < g.Confs()
    ensures CountOf(g, vs, c, i, j, fuel) == Length(TreesOf(g, vs, c, i, j, fuel))
    decreases fuel, 0, 0
  {
    if fuel > 0 {
      NamedStarts(g, c);
      if !(c < g.n || g.t.steps[c - 1] < 0) {
        StepRange(g, c - 1);
        Sizes(g);
        var l := g.t.enders[g.t.steps[c - 1]];
        forall x | 0 <= x < |l| ensures l[x] < g.Confs() { Enders(g.n, g.rules, g.t, g.t.steps[c - 1], l[x]); }
        hide Layout, Over;
        CountIsLengthEnders(g, vs, c, i, j, l, [], fuel - 1);
      }
    }
  }

  lemma {:induction false} CountIsLengthEnders(g: Parse, vs: seq<S.View>, c: nat, i: nat, j: nat, l: seq<nat>, acc: seq<Tree>, fuel: nat)
    requires g.Ok() && 0 < c < g.Confs() && forall x :: 0 <= x < |l| ==> l[x] < g.Confs()
    ensures CountEnders(g, vs, c, i, j, l, |acc|, fuel) == Length(OverEnders(g, vs, c, i, j, l, acc, fuel))
    decreases fuel, 2, |l|
  {
    hide Layout, Over;
    if l != [] && j < |vs| && l[0] < |vs[j].done| {
      CountIsLengthStarts(g, vs, c, i, j, l[0], vs[j].done[l[0]], acc, fuel);
      var o := OverStarts(g, vs, c, i, j, l[0], vs[j].done[l[0]], acc, fuel);
      if o.Some? { CountIsLengthEnders(g, vs, c, i, j, l[1..], o.value, fuel); }
    }
  }

  lemma {:induction false} CountIsLengthStarts(g: Parse, vs: seq<S.View>, c: nat, i: nat, j: nat, e: nat, ks: seq<nat>, acc: seq<Tree>, fuel: nat)
    requires g.Ok() && 0 < c < g.Confs() && e < g.Confs()
    ensures CountStarts(g, vs, c, i, j, e, ks, |acc|, fuel) == Length(OverStarts(g, vs, c, i, j, e, ks, acc, fuel))
    decreases fuel, 1, |ks|
  {
    hide Layout, Over;
    if ks != [] {
      var k := ks[0];
      if k >= i && k < |vs| && vs[k].Has(c - 1, i) {
        CountIsLength(g, vs, c - 1, i, k, fuel);
        CountIsLength(g, vs, e, k, j, fuel);
        var ps, us := TreesOf(g, vs, c - 1, i, k, fuel), TreesOf(g, vs, e, k, j, fuel);
        if ps.Some? && us.Some? {
          CrossLength(ps.value, us.value, acc);
          CountIsLengthStarts(g, vs, c, i, j, e, ks[1..], Cross(ps.value, us.value, acc), fuel);
        }
      } else {
        CountIsLengthStarts(g, vs, c, i, j, e, ks[1..], acc, fuel);
      }
    }
  }
}
