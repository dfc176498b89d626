/** Reading the derivation trees, or their number, off the kept states of a parse. */
module EarleyForest {
  import opened Common
  import opened EarleyGrammar
  import opened EarleyChart
  import opened EarleyParser
  import opened EarleyUse
  import opened EarleyPrune
  import opened EarleySource
  import opened EarleyTrees
  import opened EarleyExact
  import opened EarleyFuel
  import S = EarleySets

  /** The kept states, as far as reading them is concerned. */
  ghost predicate Readable(g: Parse, star: seq<S.State>)
    reads star
  {
    g.Ok() && forall k :: 0 <= k < |star| ==>
      star[k].Valid() && star[k].num == k && |star[k].sets| == g.Confs() && star[k].work < 0
  }

  /** The set of a configuration in a state that can be read. */
  lemma ReadSet(g: Parse, star: seq<S.State>, j: nat, c: nat)
    requires Readable(g, star) && j < |star| && c < g.Confs()
    ensures |star[j].sets| == |star[j].view.done| == |star[j].view.todo| == g.Confs() && star[j].Valid() && star[j].num == j
    ensures forall x :: 0 <= x < |star[j].view.done[c]| ==> star[j].view.done[c][x] <= j && star[j].view.Has(c, star[j].view.done[c][x])
    ensures star[j].sets[c].Absent? ==> star[j].view.done[c] == []
    ensures var s := star[j].sets[c]; s.Vector? ==> |s.v| == j + 6 && S.Linked(s.v, s.v[2], star[j].view.done[c])
  {
    star[j].Bounded(c);
  }

  lemma EndersIn(g: Parse, c: nat) returns (l: seq<nat>)
    requires g.Ok() && g.n <= c < g.Confs() && 0 < c && g.t.steps[c - 1] >= 0
    ensures |g.t.enders| == g.n && 0 <= g.t.steps[c - 1] < g.n && l == g.t.enders[g.t.steps[c - 1]]
    ensures forall x :: 0 <= x < |l| ==> l[x] < g.Confs()
  {
    Sizes(g);
    StepRange(g, c - 1);
    l := g.t.enders[g.t.steps[c - 1]];
    forall x | 0 <= x < |l| ensures l[x] < g.Confs() { Enders(g.n, g.rules, g.t, g.t.steps[c - 1], l[x]); }
  }

  // ----- the trees

  method ExtendTrees(ps: seq<Tree>, us: seq<Tree>, acc0: seq<Tree>) returns (acc: seq<Tree>)
    ensures acc == Cross(ps, us, acc0)
  {
    acc := acc0;
    var l3 := us;
    while l3 != []
      invariant Cross(ps, l3, acc) == Cross(ps, us, acc0)
      decreases |l3|
    {
      var l4 := ps;
      ghost var before := acc;
      while l4 != []
        invariant ExtendAll(l4, l3[0], acc) == ExtendAll(ps, l3[0], before)
        decreases |l4|
      {
        acc := [Extend(l4[0], l3[0])] + acc;
        l4 := l4[1..];
      }
      l3 := l3[1..];
    }
  }

  /** `deriv-trees`. */
  method DerivTrees(g: Parse, star: seq<S.State>, c: nat, i: nat, j: nat, fuel: nat) returns (r: Option<seq<Tree>>)
    requires Readable(g, star) && c < g.Confs() && j < |star|
    ensures r == TreesOf(g, Views(star), c, i, j, fuel)
    decreases fuel, 0, 0
  {
    NamedStarts(g, c);
    if fuel == 0 {
      return None;
    } else if g.t.names[c].Some? {
      return Some([if c < g.n then Token(c) else Node(RuleAt(g.n, g.rules, c, |g.rules|), Nil)]);
    }
    ghost var l := EndersIn(g, c);
    r := TreesOverEnders(g, star, c, i, j, g.t.enders[g.t.steps[c - 1]], fuel - 1);
  }

  method TreesOverEnders(g: Parse, star: seq<S.State>, c: nat, i: nat, j: nat, l0: seq<nat>, fuel: nat) returns (r: Option<seq<Tree>>)
    requires Readable(g, star) && 0 < c < g.Confs() && j < |star| && forall x :: 0 <= x < |l0| ==> l0[x] < g.Confs()
    ensures r == OverEnders(g, Views(star), c, i, j, l0, [], fuel)
    decreases fuel, 2, 0
  {
    hide Readable;
    var l1: seq<nat>, l2: seq<Tree> := l0, [];
    while l1 != []
      invariant (forall x :: 0 <= x < |l1| ==> l1[x] < g.Confs())
      invariant OverEnders(g, Views(star), c, i, j, l1, l2, fuel) == OverEnders(g, Views(star), c, i, j, l0, [], fuel)
      decreases |l1|
    {
      ReadSet(g, star, j, l1[0]);
      var o := TreesOverStarts(g, star, c, i, j, l1[0], l2, fuel);
      if o.None? {
        return None;
      }
      l1, l2 := l1[1..], o.value;
    }
    return Some(l2);
  }

  method TreesOverStarts(g: Parse, star: seq<S.State>, c: nat, i: nat, j: nat, e: nat, acc: seq<Tree>, fuel: nat) returns (r: Option<seq<Tree>>)
    requires Readable(g, star) && 0 < c < g.Confs() && j < |star| && e < g.Confs() && |star[j].view.done| == g.Confs()
    ensures r == OverStarts(g, Views(star), c, i, j, e, star[j].view.done[e], acc, fuel)
    decreases fuel, 1, 0
  {
    hide Readable, S.Linked;
    ReadSet(g, star, j, e);
    match star[j].sets[e] {
      case Absent => return Some(acc);
      case Vector(v) =>
        r := TreesAlong(g, star, c, i, j, e, v, acc, fuel);
    }
  }

  /** The trees with the last symbol starting at `k` added to `acc`. */
  ghost function AtStart(g: Parse, vs: seq<S.View>, c: nat, i: nat, j: nat, e: nat, k: nat, acc: seq<Tree>, fuel: nat): Option<seq<Tree>>
    requires c > 0
  {
    if k >= i && k < |vs| && vs[k].Has(c - 1, i) then
      match TreesOf(g, vs, c - 1, i, k, fuel)
      case None => None
      case Some(ps) => (match TreesOf(g, vs, e, k, j, fuel) case None => None case Some(us) => Some(Cross(ps, us, acc)))
    else Some(acc)
  }

  lemma OneStart(g: Parse, vs: seq<S.View>, c: nat, i: nat, j: nat, e: nat, ks: seq<nat>, x: nat, acc: seq<Tree>, fuel: nat)
    requires c > 0 && x < |ks|
    ensures OverStarts(g, vs, c, i, j, e, ks[x..], acc, fuel) ==
      match AtStart(g, vs, c, i, j, e, ks[x], acc, fuel) case None => None case Some(acc') => OverStarts(g, vs, c, i, j, e, ks[x + 1..], acc', fuel)
  {
    assert ks[x..][0] == ks[x] && ks[x..][1..] == ks[x + 1..];
  }

  method TreesAtStart(g: Parse, star: seq<S.State>, c: nat, i: nat, j: nat, e: nat, k: nat, acc: seq<Tree>, fuel: nat) returns (r: Option<seq<Tree>>)
    requires Readable(g, star) && 0 < c < g.Confs() && j < |star| && e < g.Confs() && k < |star|
    ensures r == AtStart(g, Views(star), c, i, j, e, k, acc, fuel)
    decreases fuel, 0, 1
  {
    hide Readable, TreesOf, Cross, S.State.Valid, S.Linked;
    ReadSet(g, star, k, c - 1);
    assert Views(star)[k] == star[k].view;
    if k < i {
      return Some(acc);
    }
    var there := star[k].Holds(c - 1, i);
    if !there {
      return Some(acc);
    }
    var ps := DerivTrees(g, star, c - 1, i, k, fuel);
    if ps.None? {
      return None;
    }
    var us := DerivTrees(g, star, e, k, j, fuel);
    if us.None? {
      return None;
    }
    var l2 := ExtendTrees(ps.value, us.value, acc);
    return Some(l2);
  }

  method TreesAlong(g: Parse, star: seq<S.State>, c: nat, i: nat, j: nat, e: nat, v: seq<int>, acc: seq<Tree>, fuel: nat) returns (r: Option<seq<Tree>>)
    requires Readable(g, star) && 0 < c < g.Confs() && j < |star| && e < g.Confs() && |star[j].view.done| == g.Confs()
    requires |v| == j + 6 && S.Linked(v, v[2], star[j].view.done[e]) && forall x :: 0 <= x < |star[j].view.done[e]| ==> star[j].view.done[e][x] <= j
    ensures r == OverStarts(g, Views(star), c, i, j, e, star[j].view.done[e], acc, fuel)
    decreases fuel, 0, 2
  {
    hide Readable, AtStart, TreesOf, Cross;
    ghost var vs, d, x := Views(star), star[j].view.done[e], 0;
    var k, l2 := v[2], acc;
    assert d[0..] == d;
    while k >= 0
      invariant 0 <= x <= |d| && k == (if x < |d| then d[x] else -1)
      invariant OverStarts(g, vs, c, i, j, e, d[x..], l2, fuel) == OverStarts(g, vs, c, i, j, e, d, acc, fuel)
      decreases |d| - x
    {
      OneStart(g, vs, c, i, j, e, d, x, l2, fuel);
      var o := TreesAtStart(g, star, c, i, j, e, k, l2, fuel);
      if o.None? {
        return None;
      }
      l2 := o.value;
      assert S.Link(v, d[x]) == S.Next(d, x);
      k := v[k + 5];
      x := x + 1;
    }
    assert d[x..] == [];
    return Some(l2);
  }

  // ----- the trees of a symbol

  /** `deriv-trees*` over the enders `l`. */
  ghost function TreesOver(g: Parse, vs: seq<S.View>, l: seq<nat>, i: nat, j: nat, acc: seq<Tree>, fuel: nat): Option<seq<Tree>>
    decreases |l|
  {
    if l == [] then Some(acc)
    else if j < |vs| && vs[j].Has(l[0], i) then
      match TreesOf(g, vs, l[0], i, j, fuel)
      case None => None
      case Some(ts) => TreesOver(g, vs, l[1..], i, j, ts + acc, fuel)
    else TreesOver(g, vs, l[1..], i, j, acc, fuel)
  }

  /** `nb-deriv-trees*` over the enders `l`. */
  ghost function CountOver(g: Parse, vs: seq<S.View>, l: seq<nat>, i: nat, j: nat, m: nat, fuel: nat): Option<nat>
    decreases |l|
  {
    if l == [] then Some(m)
    else if j < |vs| && vs[j].Has(l[0], i) then
      match CountOf(g, vs, l[0], i, j, fuel)
      case None => None
      case Some(k) => CountOver(g, vs, l[1..], i, j, k + m, fuel)
    else CountOver(g, vs, l[1..], i, j, m, fuel)
  }

  lemma {:induction false} CountOverIsLength(g: Parse, vs: seq<S.View>, l: seq<nat>, i: nat, j: nat, acc: seq<Tree>, fuel: nat)
    requires g.Ok() && forall x :: 0 <= x < |l| ==> l[x] < g.Confs()
    ensures CountOver(g, vs, l, i, j, |acc|, fuel) == Length(TreesOver(g, vs, l, i, j, acc, fuel))
    decreases |l|
  {
    hide Layout, Over, TreesOf, CountOf;
    if l != [] {
      CountIsLength(g, vs, l[0], i, j, fuel);
      var o := TreesOf(g, vs, l[0], i, j, fuel);
      if !(j < |vs| && vs[j].Has(l[0], i)) {
        CountOverIsLength(g, vs, l[1..], i, j, acc, fuel);
      } else if o.Some? {
        CountOverIsLength(g, vs, l[1..], i, j, o.value + acc, fuel);
      }
    }
  }

  /** The trees that end in one of the enders `l`. */
  ghost predicate Ending(g: Parse, vs: seq<S.View>, l: seq<nat>, i: nat, j: nat, t: Tree) {
    exists e :: e in l && j < |vs| && vs[j].Has(e, i) && TreeFor(g, e, i, j, t)
  }

  lemma {:induction false} TreesOverExact(g: Parse, views: seq<S.View>, vs: seq<S.View>, nt: nat, l: seq<nat>, i: nat, j: nat, acc: seq<Tree>, fuel: nat)
    requires Ready(g, views, vs) && (forall e :: e in l ==> g.After(e, nt) && Rooted(g, views, e, i)) && Distinct(l) && Distinct(acc)
    requires forall t, e :: t in acc && e in l ==> !TreeFor(g, e, i, j, t)
    requires TreesOver(g, vs, l, i, j, acc, fuel).Some?
    ensures var ts := TreesOver(g, vs, l, i, j, acc, fuel).value;
            Distinct(ts) && forall t :: t in ts <==> t in acc || Ending(g, vs, l, i, j, t)
    decreases |l|
  {
    hide Ready, TreeFor, Rooted, TreesOf;
    if l != [] {
      var e := l[0];
      assert e in l && forall x :: x in l <==> x == e || x in l[1..];
      if j < |vs| && vs[j].Has(e, i) {
        var ts := TreesOf(g, vs, e, i, j, fuel).value;
        forall t ensures t in ts <==> TreeFor(g, e, i, j, t) { Exact(g, views, vs, e, i, j, fuel, t); }
        TreesDistinct(g, views, vs, e, i, j, fuel);
        DistinctConcat(ts, acc);
        forall t, e' | t in ts + acc && e' in l[1..] ensures !TreeFor(g, e', i, j, t) {
          var x :| 0 <= x < |l[1..]| && l[1..][x] == e';
          assert e' == l[x + 1] && e' in l && e' != e;
          ReadyOk(g, views, vs);
          EnderTree(g, e, nt, i, j, t);
          EnderTree(g, e', nt, i, j, t);
        }
        TreesOverExact(g, views, vs, nt, l[1..], i, j, ts + acc, fuel);
      } else {
        TreesOverExact(g, views, vs, nt, l[1..], i, j, acc, fuel);
      }
    }
  }

  lemma DistinctConcat(s: seq<Tree>, t: seq<Tree>)
    requires Distinct(s) && Distinct(t) && forall x :: x in s ==> x !in t
    ensures Distinct(s + t)
  {
    forall i, j | 0 <= i < j < |s + t| ensures (s + t)[i] != (s + t)[j] {
      if i < |s| <= j { assert s[i] in s && t[j - |s|] in t; }
    }
  }

  /** The trees of the goal over the whole input are exactly its derivation trees, each of them once,
      and there are as many as `nb-deriv-trees*` counts. */
  lemma GoalTrees(g: Parse, views: seq<S.View>, vs: seq<S.View>, fuel: nat)
    requires Ready(g, views, vs) && 0 < g.n && GoalKept(g, views, vs, |g.toks|)
    requires TreesOver(g, vs, g.t.enders[0], 0, |g.toks|, [], fuel).Some?
    ensures var ts := TreesOver(g, vs, g.t.enders[0], 0, |g.toks|, [], fuel).value;
            Distinct(ts) && CountOver(g, vs, g.t.enders[0], 0, |g.toks|, 0, fuel) == Some(|ts|) &&
            forall t :: t in ts <==> Derives(g.rules, g.toks, t, 0, 0) && Width(t) == |g.toks|
  {
    var l, j := g.t.enders[0], |g.toks|;
    assert Distinct(l);
    forall e: nat ensures e in l <==> g.After(e, 0) { Enders(g.n, g.rules, g.t, 0, e); }
    forall e | e in l ensures Rooted(g, views, e, 0) { GoalRooted(g, views, vs, e); }
    hide Layout, Over, TreeFor, Rooted, TreesOf, Fine, Closed;
    TreesOverExact(g, views, vs, 0, l, 0, j, [], fuel);
    assert forall x :: 0 <= x < |l| ==> l[x] in l && g.After(l[x], 0);
    CountOverIsLength(g, vs, l, 0, j, [], fuel);
    var ts := TreesOver(g, vs, l, 0, j, [], fuel).value;
    forall t ensures Ending(g, vs, l, 0, j, t) <==> Derives(g.rules, g.toks, t, 0, 0) && Width(t) == j {
      GoalTree(g, views, vs, t);
    }
  }

  lemma GoalRooted(g: Parse, views: seq<S.View>, vs: seq<S.View>, e: nat)
    requires Ready(g, views, vs) && 0 < g.n && g.After(e, 0)
    ensures Rooted(g, views, e, 0)
  {
    forall r, d | 0 <= r < |g.rules| && 0 <= d <= |g.rules[r].rhs| && e == Dot(g.n, g.rules, r, d)
      ensures In(ChartOf(views), 0, Base(g.n, g.rules, r), 0)
    {
      Enders(g.n, g.rules, g.t, 0, e);
      EnderIsEnd(g.n, g.rules, g.t, 0, r, d);
      StartsAre(g.n, g.rules, 0, |g.rules|, Base(g.n, g.rules, r));
    }
  }

  lemma GoalTree(g: Parse, views: seq<S.View>, vs: seq<S.View>, t: Tree)
    requires Ready(g, views, vs) && 0 < g.n && GoalKept(g, views, vs, |g.toks|)
    ensures Ending(g, vs, g.t.enders[0], 0, |g.toks|, t) <==> Derives(g.rules, g.toks, t, 0, 0) && Width(t) == |g.toks|
  {
    var l, j := g.t.enders[0], |g.toks|;
    forall e: nat ensures e in l <==> g.After(e, 0) { Enders(g.n, g.rules, g.t, 0, e); }
    if e :| e in l && j < |vs| && vs[j].Has(e, 0) && TreeFor(g, e, 0, j, t) {
      EnderTree(g, e, 0, 0, j, t);
    }
    if Derives(g.rules, g.toks, t, 0, 0) && Width(t) == j {
      EnderTreeOf(g, 0, 0, t);
      assert Predicted(g.t, ChartOf(views), 0, 0);
      hide Layout, Over, TreeFor, Fine, Closed;
      var e := Completeness(g.n, g.rules, g.t, g.toks, ChartOf(views), t, 0, 0);
      assert In(ChartOf(views), j, e, 0) && vs[j].Has(e, 0);
    }
  }

  // ----- whether there is an answer

  lemma {:induction false} TreesOverMore(g: Parse, vs: seq<S.View>, l: seq<nat>, i: nat, j: nat, acc: seq<Tree>, fuel: nat, more: nat)
    requires TreesOver(g, vs, l, i, j, acc, fuel).Some? && fuel <= more
    ensures TreesOver(g, vs, l, i, j, acc, more) == TreesOver(g, vs, l, i, j, acc, fuel)
    decreases |l|
  {
    hide TreesOf;
    if l != [] {
      if j < |vs| && vs[j].Has(l[0], i) {
        MoreFuel(g, vs, l[0], i, j, fuel, more);
        TreesOverMore(g, vs, l[1..], i, j, TreesOf(g, vs, l[0], i, j, fuel).value + acc, fuel, more);
      } else {
        TreesOverMore(g, vs, l[1..], i, j, acc, fuel, more);
      }
    }
  }

  lemma {:induction false} TreesOverEnough(g: Parse, views: seq<S.View>, vs: seq<S.View>, l: seq<nat>, i: nat, j: nat, acc: seq<Tree>, fuel: nat)
    requires Ready(g, views, vs) && j < |vs| && forall e :: e in l && vs[j].Has(e, i) ==> Shallow(g, e, i, j, fuel)
    ensures TreesOver(g, vs, l, i, j, acc, fuel).Some?
    decreases |l|
  {
    hide Ready, Shallow, TreesOf;
    if l != [] {
      assert l[0] in l && forall e :: e in l[1..] ==> e in l;
      if vs[j].Has(l[0], i) {
        Enough(g, views, vs, l[0], i, j, fuel);
        TreesOverEnough(g, views, vs, l[1..], i, j, TreesOf(g, vs, l[0], i, j, fuel).value + acc, fuel);
      } else {
        TreesOverEnough(g, views, vs, l[1..], i, j, acc, fuel);
      }
    }
  }

  /** The reader has an answer when no derivation tree of the goal is deeper than the fuel. */
  lemma GoalEnough(g: Parse, views: seq<S.View>, vs: seq<S.View>, fuel: nat)
    requires Ready(g, views, vs) && 0 < g.n && forall u :: Parses(g, u) ==> Depth(u) <= fuel
    ensures TreesOver(g, vs, g.t.enders[0], 0, |g.toks|, [], fuel).Some?
  {
    ReadyOk(g, views, vs);
    var l, j := g.t.enders[0], |g.toks|;
    forall e | e in l && vs[j].Has(e, 0) ensures Shallow(g, e, 0, j, fuel) {
      Enders(g.n, g.rules, g.t, 0, e);
      forall t | TreeFor(g, e, 0, j, t) ensures Depth(t) <= fuel { EnderTree(g, e, 0, 0, j, t); }
    }
    assert |vs| == |g.toks| + 1;
    hide Layout, Over, Ready;
    TreesOverEnough(g, views, vs, l, 0, j, [], fuel);
  }

  ghost predicate Among(g: Parse, ts: seq<Tree>) {
    forall u :: Parses(g, u) ==> u in ts
  }

  ghost predicate FinitelyMany(g: Parse) {
    exists ts :: Among(g, ts)
  }

  lemma {:induction false} DeepestOf(ts: seq<Tree>) returns (depth: nat)
    ensures forall t :: t in ts ==> Depth(t) <= depth
  {
    if ts == [] {
      depth := 0;
    } else {
      var d := DeepestOf(ts[1..]);
      depth := Max(d, Depth(ts[0]));
      forall t | t in ts ensures Depth(t) <= depth { assert t == ts[0] || t in ts[1..]; }
    }
  }

  /** Some fuel is enough exactly when the goal has finitely many derivation trees. */
  lemma GoalAnswers(g: Parse, views: seq<S.View>, vs: seq<S.View>)
    requires Ready(g, views, vs) && 0 < g.n && GoalKept(g, views, vs, |g.toks|)
    ensures (exists fuel: nat :: TreesOver(g, vs, g.t.enders[0], 0, |g.toks|, [], fuel).Some?) <==> FinitelyMany(g)
  {
    hide Ready, TreesOver, GoalKept;
    assert |g.t.enders| == g.n by { ReadyOk(g, views, vs); Sizes(g); }
    if fuel: nat :| TreesOver(g, vs, g.t.enders[0], 0, |g.toks|, [], fuel).Some? {
      GoalTrees(g, views, vs, fuel);
      var ts := TreesOver(g, vs, g.t.enders[0], 0, |g.toks|, [], fuel).value;
      assert Among(g, ts);
    }
    if FinitelyMany(g) {
      var ts :| Among(g, ts);
      var depth := DeepestOf(ts);
      GoalEnough(g, views, vs, depth);
    }
  }

  // ----- from a grammar and an input to its trees

  lemma KeptReady(g: Parse, states: seq<S.State>, views: seq<S.View>, star: seq<S.State>)
    requires g.Ok() && Both(g, states, views, star) && forall k :: 0 <= k < |star| ==> Settled(g, views, star, k)
    ensures Ready(g, views, Views(star)) && Readable(g, star)
  {
    Sizes(g);
    hide Layout, Over;
    BothSizes(g, states, views, star);
    forall j | 0 <= j < |star| ensures Fine(g, views, Views(star), j) { KeptFine(g, states, views, star, j); }
    forall k | 0 <= k < |star| ensures star[k].work < 0 { assert Settled(g, views, star, k); }
  }

  lemma KeptFine(g: Parse, states: seq<S.State>, views: seq<S.View>, star: seq<S.State>, j: nat)
    requires g.Ok() && Both(g, states, views, star) && j < |star| && Settled(g, views, star, j)
    ensures Fine(g, views, Views(star), j)
  {
    hide Layout, Over, Claim, Divided, Closed;
    var v := star[j].view;
    ViewSize(star[j]);
    star[j].AllDone();
    forall c | 0 <= c < g.Confs() ensures Distinct(v.done[c]) { star[j].Bounded(c); }
    forall c, i | v.Has(c, i) ensures g.Says(c, i, j) && i in v.done[c] && In(ChartOf(views), j, c, i) && Divided(g, views, Views(star), c, i, j) {
      assert Within(v, views[j]) && Good(g, states[j], j) && views[j].Has(c, i);
      assert g.Says(c, i, j);
    }
  }

  // ----- what the backward pass keeps

  /** A rule started at `s` whose trees `kids` end in a kept entry. */
  ghost predicate KeptRule(g: Parse, views: seq<S.View>, vs: seq<S.View>, r: nat, kids: Trees, s: nat) {
    Ready(g, views, vs) && r < |g.rules| && DerivesAll(g.rules, g.toks, kids, g.rules[r].rhs, s) &&
    In(ChartOf(views), s, Base(g.n, g.rules, r), s) &&
    s + Widths(kids) < |vs| && vs[s + Widths(kids)].Has(Dot(g.n, g.rules, r, |g.rules[r].rhs|), s)
  }

  /** The forward pass has the entry with the dot after the trees `a`, and the one of the next tree. */
  lemma ForwardParts(g: Parse, views: seq<S.View>, vs: seq<S.View>, r: nat, a: Trees, b: Trees, s: nat)
    requires KeptRule(g, views, vs, r, Append(a, b), s)
    ensures Len(a) <= |g.rules[r].rhs| && In(ChartOf(views), s + Widths(a), Dot(g.n, g.rules, r, Len(a)), s)
    ensures Widths(Append(a, b)) == Widths(a) + Widths(b)
    ensures b.Cons? ==> Len(a) < |g.rules[r].rhs| && g.rules[r].rhs[Len(a)] < g.n
    ensures b.Cons? ==> Derives(g.rules, g.toks, b.head, g.rules[r].rhs[Len(a)], s + Widths(a))
    ensures b.Cons? ==> Predicted(g.t, ChartOf(views), g.rules[r].rhs[Len(a)], s + Widths(a))
  {
    ReadyOk(g, views, vs);
    var ch, rhs, d := ChartOf(views), g.rules[r].rhs, Len(a);
    SplitDerives(g.rules, g.toks, a, b, rhs, s);
    assert rhs[0..d] == rhs[..d] && Dot(g.n, g.rules, r, 0) == Base(g.n, g.rules, r);
    Walk(g.n, g.rules, g.t, g.toks, ch, a, r, 0, d, s, s);
    if b.Cons? {
      DotStep(g.n, g.rules, g.t, r, d);
      assert rhs[d..][0] == rhs[d];
      assert In(ch, s + Widths(a), Dot(g.n, g.rules, r, d), s);
    }
  }

  /** With the last entry of a rule all entries of its dot are kept, and those of its trees. */
  lemma {:induction false} SpineKept(g: Parse, views: seq<S.View>, vs: seq<S.View>, r: nat, a: Trees, b: Trees, s: nat)
    requires KeptRule(g, views, vs, r, Append(a, b), s)
    ensures s + Widths(a) < |vs| && vs[s + Widths(a)].Has(Dot(g.n, g.rules, r, Len(a)), s)
    ensures b.Cons? ==> var k := s + Widths(a);
      (b.head.Node? ==> b.head.rule < |g.rules|) && k + Width(b.head) < |vs| && vs[k + Width(b.head)].Has(EnderOf(g.n, g.rules, b.head), k)
    decreases b
  {
    hide Ready, Derives;
    ForwardParts(g, views, vs, r, a, b, s);
    if b.Nil? {
      AppendNil(a);
      LenDerives(g.rules, g.toks, a, g.rules[r].rhs, s);
    } else {
      AppendSnoc(a, b.head, b.tail);
      WidthsSnoc(a, b.head);
      SpineKept(g, views, vs, r, Snoc(a, b.head), b.tail, s);
      DividedAt(g, views, vs, r, Len(a), b.head, s, s + Widths(a));
    }
  }

  lemma {:induction false} WidthsSnoc(a: Trees, v: Tree)
    ensures Widths(Snoc(a, v)) == Widths(a) + Width(v)
  {
    if a.Cons? { WidthsSnoc(a.tail, v); }
  }

  /** A kept entry is kept with its parts for a tree of the last symbol. */
  lemma DividedAt(g: Parse, views: seq<S.View>, vs: seq<S.View>, r: nat, d: nat, v: Tree, s: nat, k: nat)
    requires Ready(g, views, vs) && r < |g.rules| && d < |g.rules[r].rhs| && g.rules[r].rhs[d] < g.n && s <= k
    requires Derives(g.rules, g.toks, v, g.rules[r].rhs[d], k) && Predicted(g.t, ChartOf(views), g.rules[r].rhs[d], k)
    requires In(ChartOf(views), k, Dot(g.n, g.rules, r, d), s)
    requires k + Width(v) < |vs| && vs[k + Width(v)].Has(Dot(g.n, g.rules, r, d + 1), s)
    ensures k < |vs| && vs[k].Has(Dot(g.n, g.rules, r, d), s)
    ensures (v.Node? ==> v.rule < |g.rules|) && vs[k + Width(v)].Has(EnderOf(g.n, g.rules, v), k)
  {
    ReadyOk(g, views, vs);
    var nt, j := g.rules[r].rhs[d], k + Width(v);
    var e := Completeness(g.n, g.rules, g.t, g.toks, ChartOf(views), v, nt, k);
    Enders(g.n, g.rules, g.t, nt, e);
    DotStep(g.n, g.rules, g.t, r, d);
    DotStep(g.n, g.rules, g.t, r, d + 1);
    var c := Dot(g.n, g.rules, r, d + 1);
    assert c - 1 == Dot(g.n, g.rules, r, d) && g.n <= c && g.Before(c - 1, nt) && g.After(e, nt);
    hide Layout, Over, Closed, Derives;
    assert Fine(g, views, vs, j) && Divided(g, views, vs, c, s, j);
    assert Parts(views, c, s, j, e, k);
    assert PartsKept(vs, c, s, j, e, k);
  }

  /** Everything that a tree with a kept end uses is kept. */
  lemma {:induction false} TreeKept(g: Parse, views: seq<S.View>, vs: seq<S.View>, u: Tree, nt: nat, s: nat, c: nat, i: nat, j: nat)
    requires Ready(g, views, vs) && nt < g.n && Derives(g.rules, g.toks, u, nt, s) && Predicted(g.t, ChartOf(views), nt, s)
    requires (u.Node? ==> u.rule < |g.rules|) && s + Width(u) < |vs| && vs[s + Width(u)].Has(EnderOf(g.n, g.rules, u), s)
    requires Uses(g, u, s, c, i, j)
    ensures j < |vs| && vs[j].Has(c, i)
    decreases u
  {
    match u
    case Token(_) =>
    case Node(r, kids) =>
      ReadyOk(g, views, vs);
      StartsAre(g.n, g.rules, nt, |g.rules|, Base(g.n, g.rules, r));
      assert KeptRule(g, views, vs, r, kids, s);
      hide Ready, KeptRule, Derives;
      if a, b :| Stops(g, r, kids, a, b, s, c, i, j) {
        SpineKept(g, views, vs, r, a, b, s);
      } else {
        KidsKept(g, views, vs, r, Nil, kids, s, c, i, j);
      }
  }

  lemma {:induction false} KidsKept(g: Parse, views: seq<S.View>, vs: seq<S.View>, r: nat, a: Trees, b: Trees, s: nat, c: nat, i: nat, j: nat)
    requires KeptRule(g, views, vs, r, Append(a, b), s) && AnyUses(g, b, s + Widths(a), c, i, j)
    ensures j < |vs| && vs[j].Has(c, i)
    decreases b
  {
    hide Ready, Uses, Derives;
    ForwardParts(g, views, vs, r, a, b, s);
    SpineKept(g, views, vs, r, a, b, s);
    if Uses(g, b.head, s + Widths(a), c, i, j) {
      TreeKept(g, views, vs, b.head, g.rules[r].rhs[Len(a)], s + Widths(a), c, i, j);
    } else {
      AppendSnoc(a, b.head, b.tail);
      WidthsSnoc(a, b.head);
      KidsKept(g, views, vs, r, Snoc(a, b.head), b.tail, s, c, i, j);
    }
  }

  /** The backward pass keeps exactly the entries that take part in a parse of the goal. */
  lemma KeptExact(g: Parse, states: seq<S.State>, views: seq<S.View>, star: seq<S.State>, c: nat, i: nat, j: nat)
    requires g.Ok() && 0 < g.n && Both(g, states, views, star) && GoalKept(g, views, Views(star), |g.toks|)
    requires forall k :: 0 <= k < |star| ==> Settled(g, views, star, k)
    ensures (j < |star| && star[j].view.Has(c, i)) <==> Useful(g, c, i, j)
  {
    hide Layout, Over, Both, Settled, Ready, Readable, Useful, GoalKept;
    KeptReady(g, states, views, star);
    BothSizes(g, states, views, star);
    if j < |star| && star[j].view.Has(c, i) { StateUseful(g, states, views, star, c, i, j); }
    if Useful(g, c, i, j) { UsefulKept(g, views, Views(star), c, i, j); }
  }

  lemma StateUseful(g: Parse, states: seq<S.State>, views: seq<S.View>, star: seq<S.State>, c: nat, i: nat, j: nat)
    requires Both(g, states, views, star) && j < |star| && star[j].view.Has(c, i)
    ensures Useful(g, c, i, j)
  {
    hide Parsed, Useful;
    assert AllUseful(g, star[j].view, j);
  }

  lemma UsefulKept(g: Parse, views: seq<S.View>, vs: seq<S.View>, c: nat, i: nat, j: nat)
    requires Ready(g, views, vs) && 0 < g.n && GoalKept(g, views, vs, |g.toks|) && Useful(g, c, i, j)
    ensures j < |vs| && vs[j].Has(c, i)
  {
    hide Ready, Uses, GoalKept;
    var u :| Parses(g, u) && Uses(g, u, 0, c, i, j);
    GoalPredicted(g, views, vs);
    GoalEnder(g, views, vs, u);
    TreeKept(g, views, vs, u, 0, 0, c, i, j);
  }

  lemma GoalPredicted(g: Parse, views: seq<S.View>, vs: seq<S.View>)
    requires Ready(g, views, vs) && 0 < g.n
    ensures |g.t.starters| == g.n && Predicted(g.t, ChartOf(views), 0, 0)
  {
  }

  lemma GoalEnder(g: Parse, views: seq<S.View>, vs: seq<S.View>, u: Tree)
    requires Ready(g, views, vs) && 0 < g.n && GoalKept(g, views, vs, |g.toks|) && Parses(g, u)
    ensures (u.Node? ==> u.rule < |g.rules|) && |g.toks| < |vs| && vs[|g.toks|].Has(EnderOf(g.n, g.rules, u), 0)
  {
    ReadyOk(g, views, vs);
    GoalPredicted(g, views, vs);
    var e := Completeness(g.n, g.rules, g.t, g.toks, ChartOf(views), u, 0, 0);
    Enders(g.n, g.rules, g.t, 0, e);
    hide Layout, Over, Closed, Derives;
    assert In(ChartOf(views), |g.toks|, e, 0) && g.After(e, 0);
  }

  lemma GoalEnders(g: Parse, star: seq<S.State>)
    requires Readable(g, star) && 0 < g.n
    ensures |g.t.enders| == g.n && forall x :: 0 <= x < |g.t.enders[0]| ==> g.t.enders[0][x] < g.Confs()
  {
    Sizes(g);
    var l := g.t.enders[0];
    forall x | 0 <= x < |l| ensures l[x] < g.Confs() { Enders(g.n, g.rules, g.t, 0, l[x]); }
  }

  /** `parse->trees` for the goal over the whole input. */
  method ReadGoalTrees(g: Parse, star: seq<S.State>, fuel: nat) returns (r: Option<seq<Tree>>)
    requires Readable(g, star) && |star| == |g.toks| + 1 && 0 < g.n && |g.t.enders| == g.n
    ensures r == TreesOver(g, Views(star), g.t.enders[0], 0, |g.toks|, [], fuel)
  {
    GoalEnders(g, star);
    hide Readable, TreesOf, S.State.Valid;
    var j := |g.toks|;
    var l: seq<nat>, trees: seq<Tree> := g.t.enders[0], [];
    while l != []
      invariant forall x :: 0 <= x < |l| ==> l[x] < g.Confs()
      invariant TreesOver(g, Views(star), l, 0, j, trees, fuel) == TreesOver(g, Views(star), g.t.enders[0], 0, j, [], fuel)
      decreases |l|
    {
      ReadSet(g, star, j, l[0]);
      var there := star[j].Holds(l[0], 0);
      assert Views(star)[j] == star[j].view;
      if there {
        var ts := DerivTrees(g, star, l[0], 0, j, fuel);
        if ts.None? {
          return None;
        }
        trees := ts.value + trees;
      }
      l := l[1..];
    }
    return Some(trees);
  }

  // ----- the trees of an input by symbols and definitions

  function SpelledTrees(defs: seq<Def>, nts: seq<string>, ts: seq<Tree>): seq<Derivation> {
    seq(|ts|, k requires 0 <= k < |ts| => Spelled(defs, nts, ts[k]))
  }

  /** The parses of the numbered goal, spelled out, are the parses of the input, each once. */
  lemma AllParses(defs: seq<Def>, input: seq<seq<string>>, nts: seq<string>, g: Parse, ts: seq<Tree>)
    requires Numbering(defs, input, nts, g.rules, g.toks) && Distinct(ts) && forall t :: t in ts <==> Parses(g, t)
    ensures Distinct(SpelledTrees(defs, nts, ts)) && forall u :: u in SpelledTrees(defs, nts, ts) <==> IsParse(defs, input, u)
  {
    var us := SpelledTrees(defs, nts, ts);
    hide Derives, Derived, Spelled, InOrder, RulesAre;
    forall k | 0 <= k < |ts| ensures Parses(g, ts[k]) && IsParse(defs, input, us[k]) && Coded(defs, nts, us[k]) == ts[k] {
      assert ts[k] in ts;
      TreeIsDerivation(defs, input, nts, g.rules, g.toks, ts[k], 0, 0);
    }
    forall u | IsParse(defs, input, u) ensures u in us {
      DerivationIsTree(defs, input, nts, g.rules, g.toks, u, 0, 0);
      var t := Coded(defs, nts, u);
      assert Parses(g, t);
      var k :| 0 <= k < |ts| && ts[k] == t;
      assert us[k] == u;
    }
  }

  lemma {:induction false} SpelledDepth(defs: seq<Def>, nts: seq<string>, rules: seq<Rule>, toks: seq<seq<nat>>, t: Tree, nt: nat, i: nat)
    requires Derives(rules, toks, t, nt, i) && |rules| <= Place(defs, |defs|, 0)
    ensures Deep(Spelled(defs, nts, t)) == Depth(t)
    decreases t
  {
    if t.Node? { SpelledDepths(defs, nts, rules, toks, t.kids, rules[t.rule].rhs, i); }
  }

  lemma {:induction false} SpelledDepths(defs: seq<Def>, nts: seq<string>, rules: seq<Rule>, toks: seq<seq<nat>>, ts: Trees, xs: seq<nat>, i: nat)
    requires DerivesAll(rules, toks, ts, xs, i) && |rules| <= Place(defs, |defs|, 0)
    ensures Deeps(SpelledAll(defs, nts, ts)) == Depths(ts) && HowMany(SpelledAll(defs, nts, ts)) == Len(ts)
    decreases ts
  {
    if ts.Cons? {
      SpelledDepth(defs, nts, rules, toks, ts.head, xs[0], i);
      SpelledDepths(defs, nts, rules, toks, ts.tail, xs[1..], i + Width(ts.head));
    }
  }

  /** Some parse of the input is deeper than the fuel. */
  ghost predicate TooDeep(defs: seq<Def>, input: seq<seq<string>>, fuel: nat) {
    exists t :: IsParse(defs, input, t) && Deep(t) > fuel
  }

  lemma DeepParse(defs: seq<Def>, input: seq<seq<string>>, nts: seq<string>, g: Parse, t: Tree, fuel: nat)
    requires Numbering(defs, input, nts, g.rules, g.toks) && Parses(g, t) && Depth(t) > fuel
    ensures TooDeep(defs, input, fuel)
  {
    hide Derives, Derived, Depth, Deep;
    TreeIsDerivation(defs, input, nts, g.rules, g.toks, t, 0, 0);
    SpelledDepth(defs, nts, g.rules, g.toks, t, 0, 0);
    assert IsParse(defs, input, Spelled(defs, nts, t));
  }

  /** The derivations of an input: every one exactly once, or no answer, and then there is one deeper than
      the fuel. */
  method ParseTrees(defs: seq<Def>, input: seq<seq<string>>, fuel: nat) returns (r: Option<seq<Derivation>>)
    requires defs != []
    ensures r.Some? ==> Distinct(r.value) && forall t :: t in r.value <==> IsParse(defs, input, t)
    ensures r.None? ==> TooDeep(defs, input, fuel)
  {
    var nts, p := MakeParser(defs, input);
    hide Layout, Over, Both, Parsed, GoalKept, Numbering, Readable, Ready, TreesOver, CountOver, Derives, IsParse, TooDeep, Parses, Depth, SpelledTrees;
    Numbers(defs, input, nts, p);
    var states, views := Forward(p);
    var star := Backward(p, states, views);
    BothSizes(p, states, views, star);
    KeptReady(p, states, views, star);
    assert |p.t.enders| == p.n by { Sizes(p); }
    var ts := ReadGoalTrees(p, star, fuel);
    if ts.Some? {
      GoalTrees(p, views, Views(star), fuel);
      AllParses(defs, input, nts, p, ts.value);
      return Some(SpelledTrees(defs, nts, ts.value));
    }
    if t :| Parses(p, t) && Depth(t) > fuel {
      DeepParse(defs, input, nts, p, t, fuel);
    } else {
      GoalEnough(p, views, Views(star), fuel);
    }
    return None;
  }
}
