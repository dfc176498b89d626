/** The trees read off the kept states are exactly the derivation trees, each of them once. */
module EarleyExact {
  import opened Common
  import opened EarleyGrammar
  import opened EarleyChart
  import opened EarleyParser
  import opened EarleyUse
  import opened EarleyPrune
  import opened EarleyTrees
  import S = EarleySets

  /** A tree for the part of a rule before the dot of `c`, or a token, from `i` to `j`. */
  ghost predicate TreeFor(g: Parse, c: nat, i: nat, j: nat, t: Tree) {
    if c < g.n then t == Token(c) && i < |g.toks| && c in g.toks[i] && j == i + 1
    else t.Node? && DerivesTo(g.n, g.rules, g.toks, t.rule, Len(t.kids), t.kids, c, i, j)
  }

  // ----- trees with one more child

  lemma {:induction false} LenSnoc(ts: Trees, t: Tree)
    ensures Len(Snoc(ts, t)) == Len(ts) + 1
  {
    if ts.Cons? { LenSnoc(ts.tail, t); }
  }

  lemma {:induction false} Unsnoc(rules: seq<Rule>, toks: seq<seq<nat>>, ts: Trees, nts: seq<nat>, i: nat) returns (ks: Trees, u: Tree)
    requires DerivesAll(rules, toks, ts, nts, i) && nts != []
    ensures ts == Snoc(ks, u) && Widths(ts) == Widths(ks) + Width(u)
    ensures DerivesAll(rules, toks, ks, nts[..|nts| - 1], i) && Derives(rules, toks, u, nts[|nts| - 1], i + Widths(ks))
    decreases ts
  {
    if ts.tail.Nil? {
      ks, u := Nil, ts.head;
      assert nts[1..] == [];
    } else {
      var ks', u' := Unsnoc(rules, toks, ts.tail, nts[1..], i + Width(ts.head));
      ks, u := Cons(ts.head, ks'), u';
      assert nts[1..][..|nts| - 2] == nts[..|nts| - 1][1..];
    }
  }

  lemma {:induction false} SnocInjective(a: Trees, u: Tree, b: Trees, v: Tree)
    requires Snoc(a, u) == Snoc(b, v)
    ensures a == b && u == v
  {
    if a.Cons? && b.Cons? { SnocInjective(a.tail, u, b.tail, v); }
  }

  /** The trees of an ender are the derivations of its symbol that end there. */
  lemma EnderTree(g: Parse, e: nat, nt: nat, k: nat, j: nat, u: Tree)
    requires g.Ok() && g.After(e, nt)
    ensures TreeFor(g, e, k, j, u) ==>
      Derives(g.rules, g.toks, u, nt, k) && j == k + Width(u) && (u.Node? ==> u.rule < |g.rules|) && EnderOf(g.n, g.rules, u) == e
  {
    if TreeFor(g, e, k, j, u) && e >= g.n {
      Enders(g.n, g.rules, g.t, nt, e);
      EnderIsEnd(g.n, g.rules, g.t, nt, u.rule, Len(u.kids));
      assert g.rules[u.rule].rhs[..Len(u.kids)] == g.rules[u.rule].rhs;
    } else if e < g.n {
      assert g.t.steps[e] == e - g.n;
    }
  }

  lemma EnderTreeOf(g: Parse, nt: nat, k: nat, u: Tree)
    requires g.Ok() && nt < g.n && Derives(g.rules, g.toks, u, nt, k)
    ensures g.After(EnderOf(g.n, g.rules, u), nt) && TreeFor(g, EnderOf(g.n, g.rules, u), k, k + Width(u), u)
  {
    match u
    case Token(_) => assert g.t.steps[nt] == nt - g.n;
    case Node(r, kids) =>
      LenDerives(g.rules, g.toks, kids, g.rules[r].rhs, k);
      DotStep(g.n, g.rules, g.t, r, |g.rules[r].rhs|);
      assert g.rules[r].rhs[..Len(kids)] == g.rules[r].rhs;
  }

  /** The symbols of two rules around the dot. */
  ghost predicate At(g: Parse, c: nat, r: nat, d: nat) {
    r < |g.rules| && 0 < d <= |g.rules[r].rhs| && c == Dot(g.n, g.rules, r, d)
  }

  /** A tree made of one for the dot a symbol earlier and one for the symbol. */
  ghost predicate Made(g: Parse, c: nat, i: nat, j: nat, e: nat, k: nat, t: Tree) {
    exists p, u :: MadeOf(g, c, i, j, e, k, t, p, u)
  }

  ghost predicate MadeOf(g: Parse, c: nat, i: nat, j: nat, e: nat, k: nat, t: Tree, p: Tree, u: Tree) {
    c > 0 && t == Extend(p, u) && TreeFor(g, c - 1, i, k, p) && TreeFor(g, e, k, j, u)
  }

  lemma MadeIsTree(g: Parse, c: nat, r: nat, d: nat, i: nat, j: nat, e: nat, k: nat, t: Tree, p: Tree, u: Tree)
    requires g.Ok() && At(g, c, r, d) && g.After(e, g.rules[r].rhs[d - 1]) && MadeOf(g, c, i, j, e, k, t, p, u)
    ensures TreeFor(g, c, i, j, t)
  {
    var nt := g.rules[r].rhs[d - 1];
    EnderTree(g, e, nt, k, j, u);
    DotStep(g.n, g.rules, g.t, r, d - 1);
    DotUnique(g.n, g.rules, r, d - 1, p.rule, Len(p.kids));
    DerivesSnoc(g.rules, g.toks, p.kids, g.rules[r].rhs[..d - 1], i, u, nt);
    assert g.rules[r].rhs[..d - 1] + [nt] == g.rules[r].rhs[..d];
    LenSnoc(p.kids, u);
  }

  lemma TreeIsMade(g: Parse, c: nat, r: nat, d: nat, i: nat, j: nat, t: Tree) returns (e: nat, k: nat, p: Tree, u: Tree)
    requires g.Ok() && At(g, c, r, d) && TreeFor(g, c, i, j, t)
    ensures g.After(e, g.rules[r].rhs[d - 1]) && MadeOf(g, c, i, j, e, k, t, p, u) && i <= k <= j
    ensures p.Node? && p.rule == r && DerivesAll(g.rules, g.toks, p.kids, g.rules[r].rhs[..d - 1], i) && k == i + Widths(p.kids)
    ensures Derives(g.rules, g.toks, u, g.rules[r].rhs[d - 1], k) && j == k + Width(u) && (u.Node? ==> u.rule < |g.rules|) && e == EnderOf(g.n, g.rules, u)
  {
    DotStep(g.n, g.rules, g.t, r, d);
    DotStep(g.n, g.rules, g.t, r, d - 1);
    DotUnique(g.n, g.rules, r, d, t.rule, Len(t.kids));
    var nts := g.rules[r].rhs[..d];
    var ks, u' := Unsnoc(g.rules, g.toks, t.kids, nts, i);
    assert nts[..d - 1] == g.rules[r].rhs[..d - 1] && nts[d - 1] == g.rules[r].rhs[d - 1];
    LenDerives(g.rules, g.toks, ks, nts[..d - 1], i);
    k, p, u := i + Widths(ks), Node(r, ks), u';
    assert g.rules[r].rhs[d - 1] < g.n;
    EnderTreeOf(g, g.rules[r].rhs[d - 1], k, u);
    e := EnderOf(g.n, g.rules, u);
    assert Dot(g.n, g.rules, r, d - 1) == c - 1;
  }

  // ----- the kept states as far as trees are concerned

  ghost predicate Fine(g: Parse, views: seq<S.View>, vs: seq<S.View>, j: nat)
    requires j < |vs|
  {
    |vs[j].done| == |vs[j].todo| == g.Confs() && (forall c :: 0 <= c < g.Confs() ==> Distinct(vs[j].done[c])) &&
    forall c, i :: vs[j].Has(c, i) ==>
      g.Says(c, i, j) && i in vs[j].done[c] && In(ChartOf(views), j, c, i) && Divided(g, views, vs, c, i, j)
  }

  ghost predicate Ready(g: Parse, views: seq<S.View>, vs: seq<S.View>) {
    g.Ok() && |views| == |vs| == |g.toks| + 1 && |g.t.starters| == |g.t.predictors| == |g.t.enders| == g.n &&
    Closed(g.n, g.t, g.toks, ChartOf(views)) && forall j :: 0 <= j < |vs| ==> Fine(g, views, vs, j)
  }

  /** The rule of configuration `c` was started at position `i`. */
  ghost predicate Rooted(g: Parse, views: seq<S.View>, c: nat, i: nat) {
    forall r, d :: 0 <= r < |g.rules| && 0 <= d <= |g.rules[r].rhs| && c == Dot(g.n, g.rules, r, d) ==>
      In(ChartOf(views), i, Base(g.n, g.rules, r), i)
  }

  /** The entry is there and its rule was started. */
  ghost predicate Entry(g: Parse, views: seq<S.View>, vs: seq<S.View>, c: nat, i: nat, j: nat) {
    c < g.Confs() && j < |vs| && vs[j].Has(c, i) && Rooted(g, views, c, i)
  }

  lemma RootedBefore(g: Parse, views: seq<S.View>, c: nat, i: nat, r: nat, d: nat)
    requires At(g, c, r, d) && Rooted(g, views, c, i)
    ensures Rooted(g, views, c - 1, i)
  {
    forall r', d' | 0 <= r' < |g.rules| && 0 <= d' <= |g.rules[r'].rhs| && c - 1 == Dot(g.n, g.rules, r', d')
      ensures In(ChartOf(views), i, Base(g.n, g.rules, r'), i)
    {
      assert c - 1 == Dot(g.n, g.rules, r, d - 1);
      DotUnique(g.n, g.rules, r, d - 1, r', d');
    }
  }

  /** The rules of the symbol after the dot of an entry were started where the entry ends. */
  lemma RootedEnder(g: Parse, views: seq<S.View>, c: nat, nt: nat, i: nat, k: nat, e: nat)
    requires g.Ok() && |g.t.starters| == |g.t.predictors| == g.n && Closed(g.n, g.t, g.toks, ChartOf(views))
    requires g.Before(c, nt) && In(ChartOf(views), k, c, i) && g.After(e, nt)
    ensures Predicted(g.t, ChartOf(views), nt, k) && Rooted(g, views, e, k)
  {
    var ch := ChartOf(views);
    forall s | s in g.t.starters[nt] ensures In(ch, k, s, k) { assert g.t.steps[c] == nt; }
    forall r, d | 0 <= r < |g.rules| && 0 <= d <= |g.rules[r].rhs| && e == Dot(g.n, g.rules, r, d)
      ensures In(ch, k, Base(g.n, g.rules, r), k)
    {
      Enders(g.n, g.rules, g.t, nt, e);
      EnderIsEnd(g.n, g.rules, g.t, nt, r, d);
      StartsAre(g.n, g.rules, nt, |g.rules|, Base(g.n, g.rules, r));
    }
  }

  lemma {:induction false} ExtendAllMembers(ps: seq<Tree>, u: Tree, acc: seq<Tree>, t: Tree)
    ensures t in ExtendAll(ps, u, acc) <==> t in acc || exists p :: p in ps && t == Extend(p, u)
    decreases |ps|
  {
    if ps != [] {
      ExtendAllMembers(ps[1..], u, [Extend(ps[0], u)] + acc, t);
      assert ps[0] in ps;
      forall p | p in ps ensures p == ps[0] || p in ps[1..] {}
    }
  }

  lemma {:induction false} CrossMembers(ps: seq<Tree>, us: seq<Tree>, acc: seq<Tree>, t: Tree)
    ensures t in Cross(ps, us, acc) <==> t in acc || exists p, u :: p in ps && u in us && t == Extend(p, u)
    decreases |us|
  {
    if us != [] {
      ExtendAllMembers(ps, us[0], acc, t);
      CrossMembers(ps, us[1..], ExtendAll(ps, us[0], acc), t);
      assert us[0] in us;
      forall u | u in us ensures u == us[0] || u in us[1..] {}
      forall u | u in us[1..] ensures u in us {}
    }
  }

  // ----- every tree is there

  /** The trees that come from one ender and the positions `ks`. */
  ghost predicate From(g: Parse, vs: seq<S.View>, c: nat, i: nat, j: nat, e: nat, ks: seq<nat>, t: Tree) {
    exists k :: k in ks && k >= i && k < |vs| && vs[k].Has(c - 1, i) && Made(g, c, i, j, e, k, t)
  }

  lemma FromCons(g: Parse, vs: seq<S.View>, c: nat, i: nat, j: nat, e: nat, ks: seq<nat>, t: Tree)
    requires ks != []
    ensures From(g, vs, c, i, j, e, ks, t) <==>
      (ks[0] >= i && ks[0] < |vs| && vs[ks[0]].Has(c - 1, i) && Made(g, c, i, j, e, ks[0], t)) || From(g, vs, c, i, j, e, ks[1..], t)
  {
    hide Made;
    assert ks[0] in ks && forall k :: k in ks <==> k == ks[0] || k in ks[1..];
  }

  lemma MadeCross(g: Parse, c: nat, i: nat, j: nat, e: nat, k: nat, ps: seq<Tree>, us: seq<Tree>, t: Tree)
    requires c > 0 && (forall p :: p in ps <==> TreeFor(g, c - 1, i, k, p)) && (forall u :: u in us <==> TreeFor(g, e, k, j, u))
    ensures Made(g, c, i, j, e, k, t) <==> exists p, u :: p in ps && u in us && t == Extend(p, u)
  {
    if Made(g, c, i, j, e, k, t) {
      var p, u :| MadeOf(g, c, i, j, e, k, t, p, u);
      assert p in ps && u in us;
    }
    if p, u :| p in ps && u in us && t == Extend(p, u) {
      assert MadeOf(g, c, i, j, e, k, t, p, u);
    }
  }

  lemma {:induction false} StartsExact(g: Parse, views: seq<S.View>, vs: seq<S.View>, c: nat, r: nat, d: nat, i: nat, j: nat, e: nat, ks: seq<nat>, acc: seq<Tree>, fuel: nat, t: Tree)
    requires Ready(g, views, vs) && At(g, c, r, d) && Entry(g, views, vs, c, i, j) && g.After(e, g.rules[r].rhs[d - 1])
    requires (forall k :: k in ks ==> vs[j].Has(e, k)) && OverStarts(g, vs, c, i, j, e, ks, acc, fuel).Some?
    ensures t in OverStarts(g, vs, c, i, j, e, ks, acc, fuel).value <==> t in acc || From(g, vs, c, i, j, e, ks, t)
    decreases fuel, 1, |ks|
  {
    hide Ready, TreeFor, Entry, From, Made;
    if ks != [] {
      var k := ks[0];
      FromCons(g, vs, c, i, j, e, ks, t);
      if k >= i && k < |vs| && vs[k].Has(c - 1, i) {
        StartEntries(g, views, vs, c, r, d, i, j, e, k);
        var ps, us := TreesOf(g, vs, c - 1, i, k, fuel).value, TreesOf(g, vs, e, k, j, fuel).value;
        forall p ensures p in ps <==> TreeFor(g, c - 1, i, k, p) { Exact(g, views, vs, c - 1, i, k, fuel, p); }
        forall u ensures u in us <==> TreeFor(g, e, k, j, u) { Exact(g, views, vs, e, k, j, fuel, u); }
        CrossMembers(ps, us, acc, t);
        MadeCross(g, c, i, j, e, k, ps, us, t);
        StartsExact(g, views, vs, c, r, d, i, j, e, ks[1..], Cross(ps, us, acc), fuel, t);
      } else {
        StartsExact(g, views, vs, c, r, d, i, j, e, ks[1..], acc, fuel, t);
      }
    } else {
      FromNil(g, vs, c, i, j, e, t);
    }
  }

  lemma FromNil(g: Parse, vs: seq<S.View>, c: nat, i: nat, j: nat, e: nat, t: Tree)
    ensures !From(g, vs, c, i, j, e, [], t)
  {
  }

  lemma InChart(g: Parse, views: seq<S.View>, vs: seq<S.View>, j: nat, c: int, i: int)
    requires Ready(g, views, vs) && j < |vs| && vs[j].Has(c, i)
    ensures In(ChartOf(views), j, c, i) && g.Says(c, i, j) && i in vs[j].done[c] && Divided(g, views, vs, c, i, j)
  {
    assert Fine(g, views, vs, j);
  }

  lemma DotBefore(g: Parse, c: nat, r: nat, d: nat)
    requires g.Ok() && At(g, c, r, d)
    ensures g.Before(c - 1, g.rules[r].rhs[d - 1]) && c < g.Confs() && g.n < c
  {
    DotStep(g.n, g.rules, g.t, r, d - 1);
    DotStep(g.n, g.rules, g.t, r, d);
    assert c - 1 == Dot(g.n, g.rules, r, d - 1) && g.rules[r].rhs[d - 1] < g.n;
  }

  lemma StartEntries(g: Parse, views: seq<S.View>, vs: seq<S.View>, c: nat, r: nat, d: nat, i: nat, j: nat, e: nat, k: nat)
    requires Ready(g, views, vs) && At(g, c, r, d) && Entry(g, views, vs, c, i, j) && g.After(e, g.rules[r].rhs[d - 1])
    requires k < |vs| && vs[k].Has(c - 1, i) && vs[j].Has(e, k)
    ensures Entry(g, views, vs, c - 1, i, k) && Entry(g, views, vs, e, k, j)
  {
    hide Layout, Over, Closed, Fine, Rooted, Claim;
    InChart(g, views, vs, k, c - 1, i);
    DotBefore(g, c, r, d);
    RootedBefore(g, views, c, i, r, d);
    RootedEnder(g, views, c - 1, g.rules[r].rhs[d - 1], i, k, e);
  }

  lemma {:induction false} EndersExact(g: Parse, views: seq<S.View>, vs: seq<S.View>, c: nat, r: nat, d: nat, i: nat, j: nat, l: seq<nat>, acc: seq<Tree>, fuel: nat, t: Tree)
    requires Ready(g, views, vs) && At(g, c, r, d) && Entry(g, views, vs, c, i, j) && |vs[j].done| == |vs[j].todo| == g.Confs()
    requires (forall e :: e in l ==> g.After(e, g.rules[r].rhs[d - 1])) && OverEnders(g, vs, c, i, j, l, acc, fuel).Some?
    ensures t in OverEnders(g, vs, c, i, j, l, acc, fuel).value <==>
      t in acc || exists e :: e in l && e < g.Confs() && From(g, vs, c, i, j, e, vs[j].done[e], t)
    decreases fuel, 2, |l|
  {
    hide Ready, TreeFor, Entry, From, Made;
    if l != [] {
      assert l[0] in l && g.After(l[0], g.rules[r].rhs[d - 1]);
      var acc' := OverStarts(g, vs, c, i, j, l[0], vs[j].done[l[0]], acc, fuel).value;
      assert forall e :: e in l <==> e == l[0] || e in l[1..];
      assert forall k :: k in vs[j].done[l[0]] ==> vs[j].Has(l[0], k);
      StartsExact(g, views, vs, c, r, d, i, j, l[0], vs[j].done[l[0]], acc, fuel, t);
      EndersExact(g, views, vs, c, r, d, i, j, l[1..], acc', fuel, t);
    }
  }

  /** All the ways to make a tree for the configuration are kept, and no others. */
  lemma MadeIffTree(g: Parse, views: seq<S.View>, vs: seq<S.View>, c: nat, r: nat, d: nat, i: nat, j: nat, t: Tree)
    requires Ready(g, views, vs) && At(g, c, r, d) && Entry(g, views, vs, c, i, j) && |vs[j].done| == g.Confs()
    ensures TreeFor(g, c, i, j, t) <==>
      exists e :: g.After(e, g.rules[r].rhs[d - 1]) && e < g.Confs() && From(g, vs, c, i, j, e, vs[j].done[e], t)
  {
    hide Layout, Over, Closed, Fine, Rooted, TreeFor;
    var nt := g.rules[r].rhs[d - 1];
    if e :| g.After(e, nt) && e < g.Confs() && From(g, vs, c, i, j, e, vs[j].done[e], t) {
      var k :| k in vs[j].done[e] && k >= i && k < |vs| && vs[k].Has(c - 1, i) && Made(g, c, i, j, e, k, t);
      var p, u :| MadeOf(g, c, i, j, e, k, t, p, u);
      MadeIsTree(g, c, r, d, i, j, e, k, t, p, u);
    }
    if TreeFor(g, c, i, j, t) {
      var e, k, p, u := TreeIsMade(g, c, r, d, i, j, t);
      assert Made(g, c, i, j, e, k, t);
      KeptFor(g, views, vs, c, r, d, i, j, e, k, p, u);
      assert From(g, vs, c, i, j, e, vs[j].done[e], t);
    }
  }

  /** The parts of a derivation are entries of the kept states. */
  lemma KeptFor(g: Parse, views: seq<S.View>, vs: seq<S.View>, c: nat, r: nat, d: nat, i: nat, j: nat, e: nat, k: nat, p: Tree, u: Tree)
    requires Ready(g, views, vs) && At(g, c, r, d) && Entry(g, views, vs, c, i, j) && i <= k <= j && |vs[j].done| == g.Confs()
    requires p.Node? && p.rule == r && DerivesAll(g.rules, g.toks, p.kids, g.rules[r].rhs[..d - 1], i) && k == i + Widths(p.kids)
    requires Derives(g.rules, g.toks, u, g.rules[r].rhs[d - 1], k) && j == k + Width(u) && (u.Node? ==> u.rule < |g.rules|) && e == EnderOf(g.n, g.rules, u)
    requires g.After(e, g.rules[r].rhs[d - 1])
    ensures e < g.Confs() && k < |vs| && vs[k].Has(c - 1, i) && k in vs[j].done[e]
  {
    hide Layout, Over, Closed, Divided, Claim, Rooted, Fine;
    ForwardFor(g, views, vs, c, r, d, i, j, e, k, p, u);
    InChart(g, views, vs, j, c, i);
    assert Parts(views, c, i, j, e, k);
    DividedAt(g, views, vs, c, i, j, g.rules[r].rhs[d - 1], e, k);
    InChart(g, views, vs, j, e, k);
  }

  lemma ForwardFor(g: Parse, views: seq<S.View>, vs: seq<S.View>, c: nat, r: nat, d: nat, i: nat, j: nat, e: nat, k: nat, p: Tree, u: Tree)
    requires Ready(g, views, vs) && At(g, c, r, d) && Entry(g, views, vs, c, i, j)
    requires p.Node? && p.rule == r && DerivesAll(g.rules, g.toks, p.kids, g.rules[r].rhs[..d - 1], i) && k == i + Widths(p.kids)
    requires Derives(g.rules, g.toks, u, g.rules[r].rhs[d - 1], k) && j == k + Width(u) && (u.Node? ==> u.rule < |g.rules|) && e == EnderOf(g.n, g.rules, u)
    requires g.After(e, g.rules[r].rhs[d - 1])
    ensures In(ChartOf(views), j, e, k) && In(ChartOf(views), k, c - 1, i) && g.Before(c - 1, g.rules[r].rhs[d - 1]) && g.n <= c
  {
    var ch, nt := ChartOf(views), g.rules[r].rhs[d - 1];
    hide Layout, Over, Closed, Fine, Claim, Derives, DerivesAll;
    DotBefore(g, c, r, d);
    assert Dot(g.n, g.rules, r, 0) == Base(g.n, g.rules, r) && g.rules[r].rhs[0..d - 1] == g.rules[r].rhs[..d - 1];
    assert In(ch, i, Dot(g.n, g.rules, r, 0), i);
    hide Rooted;
    Walk(g.n, g.rules, g.t, g.toks, ch, p.kids, r, 0, d - 1, i, i);
    RootedEnder(g, views, c - 1, nt, i, k, e);
    var e' := Completeness(g.n, g.rules, g.t, g.toks, ch, u, nt, k);
  }

  lemma DividedAt(g: Parse, views: seq<S.View>, vs: seq<S.View>, c: nat, i: nat, j: nat, nt: nat, e: nat, k: nat)
    requires Divided(g, views, vs, c, i, j) && g.n <= c && g.Before(c - 1, nt) && g.After(e, nt) && Parts(views, c, i, j, e, k)
    ensures PartsKept(vs, c, i, j, e, k)
  {
  }

  /** `deriv-trees` returns exactly the trees of the configuration. */
  lemma {:induction false} Exact(g: Parse, views: seq<S.View>, vs: seq<S.View>, c: nat, i: nat, j: nat, fuel: nat, t: Tree)
    requires Ready(g, views, vs) && Entry(g, views, vs, c, i, j) && TreesOf(g, vs, c, i, j, fuel).Some?
    ensures t in TreesOf(g, vs, c, i, j, fuel).value <==> TreeFor(g, c, i, j, t)
    decreases fuel, 0, 0
  {
    assert Fine(g, views, vs, j) && g.Says(c, i, j);
    NamedStarts(g, c);
    if c < g.n {
      TokenExact(g, c, i, j, t);
    } else {
      var r, d := Locate(g.n, g.rules, |g.rules|, c);
      DotStep(g.n, g.rules, g.t, r, d);
      if d == 0 {
        StartExact(g, c, r, i, j, t);
      } else {
        DotStep(g.n, g.rules, g.t, r, d - 1);
        assert c - 1 == Dot(g.n, g.rules, r, d - 1);
        var nt := g.rules[r].rhs[d - 1];
        var l := g.t.enders[nt];
        forall e: nat ensures e in l <==> g.After(e, nt) { Enders(g.n, g.rules, g.t, nt, e); }
        hide Ready, TreeFor, Entry, From;
        EndersExact(g, views, vs, c, r, d, i, j, l, [], fuel - 1, t);
        MadeIffTree(g, views, vs, c, r, d, i, j, t);
      }
    }
  }

  lemma TokenExact(g: Parse, c: nat, i: nat, j: nat, t: Tree)
    requires g.Ok() && c < g.n && g.Says(c, i, j)
    ensures t == Token(c) <==> TreeFor(g, c, i, j, t)
  {
    if r: nat, d: nat, kids: Trees :| DerivesTo(g.n, g.rules, g.toks, r, d, kids, c, i, j) {
      DotStep(g.n, g.rules, g.t, r, d);
    }
  }

  lemma StartExact(g: Parse, c: nat, r: nat, i: nat, j: nat, t: Tree)
    requires g.Ok() && g.n <= c && r < |g.rules| && c == Dot(g.n, g.rules, r, 0) && g.Says(c, i, j)
    ensures t == Node(RuleAt(g.n, g.rules, c, |g.rules|), Nil) <==> TreeFor(g, c, i, j, t)
  {
    RuleAtIs(g.n, g.rules, c, r, |g.rules|);
    var r': nat, d': nat, kids: Trees :| DerivesTo(g.n, g.rules, g.toks, r', d', kids, c, i, j);
    DotUnique(g.n, g.rules, r, 0, r', d');
    LenDerives(g.rules, g.toks, kids, g.rules[r].rhs[..0], i);
    if TreeFor(g, c, i, j, t) {
      DotUnique(g.n, g.rules, r, 0, t.rule, Len(t.kids));
    } else {
      assert DerivesAll(g.rules, g.toks, Nil, g.rules[r].rhs[..0], i);
    }
  }

  lemma {:induction false} RuleAtIs(n: nat, rules: seq<Rule>, c: nat, r: nat, q: nat)
    requires r < q <= |rules| && c == Base(n, rules, r)
    ensures RuleAt(n, rules, c, q) == r
    decreases q
  {
    if r < q - 1 {
      BaseMonotone(n, rules, r, q - 1);
      RuleAtIs(n, rules, c, r, q - 1);
    }
  }

  // ----- no tree is there twice

  lemma {:induction false} ExtendAllDistinct(ps: seq<Tree>, u: Tree, acc: seq<Tree>)
    requires Distinct(ps) && Distinct(acc) && forall p :: p in ps ==> p.Node? && Extend(p, u) !in acc
    ensures Distinct(ExtendAll(ps, u, acc))
    decreases |ps|
  {
    if ps != [] {
      var acc' := [Extend(ps[0], u)] + acc;
      assert ps[0] in ps && Distinct(acc');
      forall p | p in ps[1..] ensures p.Node? && Extend(p, u) !in acc' {
        var x :| 0 <= x < |ps[1..]| && ps[1..][x] == p;
        assert p == ps[x + 1] && p != ps[0] && p in ps;
        if Extend(p, u) == Extend(ps[0], u) { SnocInjective(p.kids, u, ps[0].kids, u); }
      }
      ExtendAllDistinct(ps[1..], u, acc');
    }
  }

  lemma {:induction false} CrossDistinct(ps: seq<Tree>, us: seq<Tree>, acc: seq<Tree>)
    requires Distinct(ps) && Distinct(us) && Distinct(acc)
    requires forall p, u :: p in ps && u in us ==> p.Node? && Extend(p, u) !in acc
    ensures Distinct(Cross(ps, us, acc))
    decreases |us|
  {
    if us != [] {
      var acc' := ExtendAll(ps, us[0], acc);
      assert us[0] in us;
      ExtendAllDistinct(ps, us[0], acc);
      forall p, u | p in ps && u in us[1..] ensures p.Node? && Extend(p, u) !in acc' {
        var x :| 0 <= x < |us[1..]| && us[1..][x] == u;
        assert u == us[x + 1] && u != us[0] && u in us;
        ExtendAllMembers(ps, us[0], acc, Extend(p, u));
        if q :| q in ps && Extend(p, u) == Extend(q, us[0]) { SnocInjective(p.kids, u, q.kids, us[0]); }
      }
      CrossDistinct(ps, us[1..], acc');
    }
  }

  /** A tree determines its last child and so how it was made. */
  lemma MadeOnce(g: Parse, c: nat, r: nat, d: nat, i: nat, j: nat, e: nat, k: nat, e': nat, k': nat, t: Tree)
    requires g.Ok() && At(g, c, r, d) && g.After(e, g.rules[r].rhs[d - 1]) && g.After(e', g.rules[r].rhs[d - 1])
    requires Made(g, c, i, j, e, k, t) && Made(g, c, i, j, e', k', t)
    ensures e == e' && k == k'
  {
    DotBefore(g, c, r, d);
    var p, u :| MadeOf(g, c, i, j, e, k, t, p, u);
    var p', u' :| MadeOf(g, c, i, j, e', k', t, p', u');
    SnocInjective(p.kids, u, p'.kids, u');
    EnderTree(g, e, g.rules[r].rhs[d - 1], k, j, u);
    EnderTree(g, e', g.rules[r].rhs[d - 1], k', j, u');
  }

  /** None of the trees comes from `e` and one of the positions `ks`. */
  ghost predicate NoneFrom(g: Parse, c: nat, i: nat, j: nat, e: nat, ks: seq<nat>, acc: seq<Tree>) {
    forall t, k :: t in acc && k in ks ==> !Made(g, c, i, j, e, k, t)
  }

  lemma {:induction false} StartsDistinct(g: Parse, views: seq<S.View>, vs: seq<S.View>, c: nat, r: nat, d: nat, i: nat, j: nat, e: nat, ks: seq<nat>, acc: seq<Tree>, fuel: nat)
    requires Ready(g, views, vs) && At(g, c, r, d) && Entry(g, views, vs, c, i, j) && g.After(e, g.rules[r].rhs[d - 1])
    requires (forall k :: k in ks ==> vs[j].Has(e, k)) && OverStarts(g, vs, c, i, j, e, ks, acc, fuel).Some?
    requires Distinct(acc) && Distinct(ks) && NoneFrom(g, c, i, j, e, ks, acc)
    ensures Distinct(OverStarts(g, vs, c, i, j, e, ks, acc, fuel).value)
    decreases fuel, 1, |ks|
  {
    hide Ready, TreeFor, Entry, NoneFrom;
    if ks != [] {
      var k := ks[0];
      NoneFromTail(g, c, i, j, e, ks, acc);
      if k >= i && k < |vs| && vs[k].Has(c - 1, i) {
        StartEntries(g, views, vs, c, r, d, i, j, e, k);
        var ps, us := TreesOf(g, vs, c - 1, i, k, fuel).value, TreesOf(g, vs, e, k, j, fuel).value;
        forall p ensures p in ps <==> TreeFor(g, c - 1, i, k, p) { Exact(g, views, vs, c - 1, i, k, fuel, p); }
        forall u ensures u in us <==> TreeFor(g, e, k, j, u) { Exact(g, views, vs, e, k, j, fuel, u); }
        TreesDistinct(g, views, vs, c - 1, i, k, fuel);
        TreesDistinct(g, views, vs, e, k, j, fuel);
        ReadyOk(g, views, vs);
        CrossNew(g, c, r, d, i, j, e, k, ks, ps, us, acc);
        StartsDistinct(g, views, vs, c, r, d, i, j, e, ks[1..], Cross(ps, us, acc), fuel);
      } else {
        StartsDistinct(g, views, vs, c, r, d, i, j, e, ks[1..], acc, fuel);
      }
    }
  }

  lemma ReadyOk(g: Parse, views: seq<S.View>, vs: seq<S.View>)
    requires Ready(g, views, vs)
    ensures g.Ok()
  {
  }

  lemma NoneFromTail(g: Parse, c: nat, i: nat, j: nat, e: nat, ks: seq<nat>, acc: seq<Tree>)
    requires ks != [] && NoneFrom(g, c, i, j, e, ks, acc)
    ensures NoneFrom(g, c, i, j, e, ks[1..], acc)
  {
    assert forall k :: k in ks[1..] ==> k in ks;
  }

  /** The trees made from position `ks[0]` are new and do not come from the other positions. */
  lemma CrossNew(g: Parse, c: nat, r: nat, d: nat, i: nat, j: nat, e: nat, k: nat, ks: seq<nat>, ps: seq<Tree>, us: seq<Tree>, acc: seq<Tree>)
    requires g.Ok() && At(g, c, r, d) && g.After(e, g.rules[r].rhs[d - 1]) && ks != [] && k == ks[0]
    requires (forall p :: p in ps <==> TreeFor(g, c - 1, i, k, p)) && (forall u :: u in us <==> TreeFor(g, e, k, j, u))
    requires Distinct(ps) && Distinct(us) && Distinct(acc) && Distinct(ks) && NoneFrom(g, c, i, j, e, ks, acc)
    ensures Distinct(Cross(ps, us, acc)) && NoneFrom(g, c, i, j, e, ks[1..], Cross(ps, us, acc))
  {
    DotBefore(g, c, r, d);
    forall p, u | p in ps && u in us ensures p.Node? && Extend(p, u) !in acc {
      assert MadeOf(g, c, i, j, e, k, Extend(p, u), p, u);
      assert Made(g, c, i, j, e, k, Extend(p, u)) && k in ks;
    }
    CrossDistinct(ps, us, acc);
    forall t, k' | t in Cross(ps, us, acc) && k' in ks[1..] ensures !Made(g, c, i, j, e, k', t) {
      CrossMembers(ps, us, acc, t);
      var x :| 0 <= x < |ks[1..]| && ks[1..][x] == k';
      assert k' == ks[x + 1] && k' in ks && k' != k;
      if t !in acc {
        MadeCross(g, c, i, j, e, k, ps, us, t);
        if Made(g, c, i, j, e, k', t) { MadeOnce(g, c, r, d, i, j, e, k, e, k', t); }
      }
    }
  }

  /** None of the trees comes from the enders `l`. */
  ghost predicate NoneOf(g: Parse, c: nat, i: nat, j: nat, l: seq<nat>, acc: seq<Tree>) {
    forall t, e, k :: t in acc && e in l ==> !Made(g, c, i, j, e, k, t)
  }

  lemma {:induction false} EndersDistinct(g: Parse, views: seq<S.View>, vs: seq<S.View>, c: nat, r: nat, d: nat, i: nat, j: nat, l: seq<nat>, acc: seq<Tree>, fuel: nat)
    requires Ready(g, views, vs) && At(g, c, r, d) && Entry(g, views, vs, c, i, j) && |vs[j].done| == |vs[j].todo| == g.Confs()
    requires (forall e :: e in l ==> g.After(e, g.rules[r].rhs[d - 1])) && OverEnders(g, vs, c, i, j, l, acc, fuel).Some?
    requires Distinct(acc) && Distinct(l) && NoneOf(g, c, i, j, l, acc) && forall e :: 0 <= e < g.Confs() ==> Distinct(vs[j].done[e])
    ensures Distinct(OverEnders(g, vs, c, i, j, l, acc, fuel).value)
    decreases fuel, 2, |l|
  {
    hide Ready, TreeFor, Entry, Made, From;
    if l != [] {
      var e, ks := l[0], vs[j].done[l[0]];
      assert e in l && g.After(e, g.rules[r].rhs[d - 1]);
      assert forall x :: x in l[1..] ==> x in l;
      assert Distinct(ks) && forall k :: k in ks ==> vs[j].Has(e, k);
      StartsDistinct(g, views, vs, c, r, d, i, j, e, ks, acc, fuel);
      var acc' := OverStarts(g, vs, c, i, j, e, ks, acc, fuel).value;
      forall t, e', k' | t in acc' && e' in l[1..] ensures !Made(g, c, i, j, e', k', t) {
        StartsExact(g, views, vs, c, r, d, i, j, e, ks, acc, fuel, t);
        var x :| 0 <= x < |l[1..]| && l[1..][x] == e';
        assert e' == l[x + 1] && e' in l && e' != e;
        if t !in acc && Made(g, c, i, j, e', k', t) {
          var k := FromMade(g, vs, c, i, j, e, ks, t);
          ReadyOk(g, views, vs);
          MadeOnce(g, c, r, d, i, j, e, k, e', k', t);
        }
      }
      EndersDistinct(g, views, vs, c, r, d, i, j, l[1..], acc', fuel);
    }
  }

  lemma FromMade(g: Parse, vs: seq<S.View>, c: nat, i: nat, j: nat, e: nat, ks: seq<nat>, t: Tree) returns (k: nat)
    requires From(g, vs, c, i, j, e, ks, t)
    ensures Made(g, c, i, j, e, k, t)
  {
    k :| k in ks && k >= i && k < |vs| && vs[k].Has(c - 1, i) && Made(g, c, i, j, e, k, t);
  }

  /** `deriv-trees` returns no tree twice. */
  lemma {:induction false} TreesDistinct(g: Parse, views: seq<S.View>, vs: seq<S.View>, c: nat, i: nat, j: nat, fuel: nat)
    requires Ready(g, views, vs) && Entry(g, views, vs, c, i, j) && TreesOf(g, vs, c, i, j, fuel).Some?
    ensures Distinct(TreesOf(g, vs, c, i, j, fuel).value)
    decreases fuel, 0, 0
  {
    NamedStarts(g, c);
    if c >= g.n && g.t.steps[c - 1] >= 0 {
      assert Fine(g, views, vs, j);
      var r, d := Locate(g.n, g.rules, |g.rules|, c);
      DotStep(g.n, g.rules, g.t, r, d);
      assert d > 0 by { assert g.t.names[Dot(g.n, g.rules, r, d)].Some? <==> d == 0; }
      DotBefore(g, c, r, d);
      var nt := g.rules[r].rhs[d - 1];
      var l := g.t.enders[nt];
      forall e: nat ensures e in l <==> g.After(e, nt) { Enders(g.n, g.rules, g.t, nt, e); }
      assert Distinct(l);
      hide Ready, TreeFor, Entry, Made, Layout, Over;
      EndersDistinct(g, views, vs, c, r, d, i, j, l, [], fuel - 1);
    }
  }
}
