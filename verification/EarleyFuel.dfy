/** How deep the reading of derivation trees goes: it has an answer exactly when there are finitely many. */
module EarleyFuel {
  import opened Common
  import opened EarleyGrammar
  import opened EarleyChart
  import opened EarleyParser
  import opened EarleyUse
  import opened EarleyTrees
  import opened EarleyExact
  import S = EarleySets

  // ----- more fuel

  /** An answer stays the same with more fuel. */
  lemma {:induction false} MoreFuel(g: Parse, vs: seq<S.View>, c: nat, i: nat, j: nat, fuel: nat, more: nat)
    requires TreesOf(g, vs, c, i, j, fuel).Some? && fuel <= more
    ensures TreesOf(g, vs, c, i, j, more) == TreesOf(g, vs, c, i, j, fuel)
    decreases fuel, 0, 0
  {
    if !(c < |g.t.names| && g.t.names[c].Some?) {
      MoreEnders(g, vs, c, i, j, g.t.enders[g.t.steps[c - 1]], [], fuel - 1, more - 1);
    }
  }

  lemma {:induction false} MoreEnders(g: Parse, vs: seq<S.View>, c: nat, i: nat, j: nat, l: seq<nat>, acc: seq<Tree>, fuel: nat, more: nat)
    requires c > 0 && OverEnders(g, vs, c, i, j, l, acc, fuel).Some? && fuel <= more
    ensures OverEnders(g, vs, c, i, j, l, acc, more) == OverEnders(g, vs, c, i, j, l, acc, fuel)
    decreases fuel, 2, |l|
  {
    if l != [] {
      var o := OverStarts(g, vs, c, i, j, l[0], vs[j].done[l[0]], acc, fuel);
      MoreStarts(g, vs, c, i, j, l[0], vs[j].done[l[0]], acc, fuel, more);
      MoreEnders(g, vs, c, i, j, l[1..], o.value, fuel, more);
    }
  }

  lemma {:induction false} MoreStarts(g: Parse, vs: seq<S.View>, c: nat, i: nat, j: nat, e: nat, ks: seq<nat>, acc: seq<Tree>, fuel: nat, more: nat)
    requires c > 0 && OverStarts(g, vs, c, i, j, e, ks, acc, fuel).Some? && fuel <= more
    ensures OverStarts(g, vs, c, i, j, e, ks, acc, more) == OverStarts(g, vs, c, i, j, e, ks, acc, fuel)
    decreases fuel, 1, |ks|
  {
    if ks != [] {
      var k := ks[0];
      if k >= i && k < |vs| && vs[k].Has(c - 1, i) {
        MoreFuel(g, vs, c - 1, i, k, fuel, more);
        MoreFuel(g, vs, e, k, j, fuel, more);
        var ps, us := TreesOf(g, vs, c - 1, i, k, fuel).value, TreesOf(g, vs, e, k, j, fuel).value;
        MoreStarts(g, vs, c, i, j, e, ks[1..], Cross(ps, us, acc), fuel, more);
      } else {
        MoreStarts(g, vs, c, i, j, e, ks[1..], acc, fuel, more);
      }
    }
  }

  // ----- how deep a tree is for the reader

  function Max(a: nat, b: nat): nat {
    if a < b then b else a
  }

  /** The reader goes from the last child of a node back to the first. */
  function Depth(t: Tree): nat {
    match t
    case Token(_) => 1
    case Node(_, kids) => Depths(kids)
  }

  function Depths(ts: Trees): nat {
    match ts
    case Nil => 1
    case Cons(t, rest) => Max(Len(rest) + 1 + Max(1, Depth(t)), Depths(rest))
  }

  lemma {:induction false} DepthsSnoc(ts: Trees, u: Tree)
    ensures Depths(Snoc(ts, u)) == 1 + Max(Depths(ts), Depth(u)) && Len(Snoc(ts, u)) == Len(ts) + 1
  {
    match ts
    case Nil => DepthPositive(u);
    case Cons(t, rest) => DepthsSnoc(rest, u);
  }

  lemma {:induction false} DepthPositive(t: Tree)
    ensures Depth(t) >= 1
  {
    if t.Node? { DepthsPositive(t.kids); }
  }

  lemma {:induction false} DepthsPositive(ts: Trees)
    ensures Depths(ts) >= 1 && Depths(ts) >= Len(ts) + 1
  {
    if ts.Cons? { DepthsPositive(ts.tail); }
  }

  ghost predicate Shallow(g: Parse, c: nat, i: nat, j: nat, depth: nat) {
    forall t :: TreeFor(g, c, i, j, t) ==> Depth(t) <= depth
  }

  /** There is a tree for every entry that is right. */
  lemma SomeTree(g: Parse, c: nat, i: nat, j: nat) returns (t: Tree)
    requires g.Ok() && g.Says(c, i, j)
    ensures TreeFor(g, c, i, j, t)
  {
    if c < g.n {
      if r: nat, d: nat, kids :| DerivesTo(g.n, g.rules, g.toks, r, d, kids, c, i, j) {
        DotStep(g.n, g.rules, g.t, r, d);
      }
      t := Token(c);
    } else {
      var r: nat, d: nat, kids :| DerivesTo(g.n, g.rules, g.toks, r, d, kids, c, i, j);
      LenDerives(g.rules, g.toks, kids, g.rules[r].rhs[..d], i);
      t := Node(r, kids);
    }
  }

  /** When the trees of an entry are not deep, those of its parts are less deep. */
  lemma PartsShallow(g: Parse, c: nat, r: nat, d: nat, i: nat, j: nat, e: nat, k: nat, depth: nat)
    requires g.Ok() && At(g, c, r, d) && g.After(e, g.rules[r].rhs[d - 1]) && g.Says(c - 1, i, k) && g.Says(e, k, j)
    requires Shallow(g, c, i, j, depth)
    ensures depth > 0 && Shallow(g, c - 1, i, k, depth - 1) && Shallow(g, e, k, j, depth - 1)
  {
    var p0 := SomeTree(g, c - 1, i, k);
    var u0 := SomeTree(g, e, k, j);
    DotStep(g.n, g.rules, g.t, r, d - 1);
    assert c - 1 == Dot(g.n, g.rules, r, d - 1) && g.n <= c - 1;
    Combined(g, c, r, d, i, j, e, k, p0, u0, depth);
    forall p | TreeFor(g, c - 1, i, k, p) ensures Depth(p) <= depth - 1 { Combined(g, c, r, d, i, j, e, k, p, u0, depth); }
    forall u | TreeFor(g, e, k, j, u) ensures Depth(u) <= depth - 1 { Combined(g, c, r, d, i, j, e, k, p0, u, depth); }
  }

  lemma Combined(g: Parse, c: nat, r: nat, d: nat, i: nat, j: nat, e: nat, k: nat, p: Tree, u: Tree, depth: nat)
    requires g.Ok() && At(g, c, r, d) && g.After(e, g.rules[r].rhs[d - 1]) && g.n <= c - 1
    requires TreeFor(g, c - 1, i, k, p) && TreeFor(g, e, k, j, u) && Shallow(g, c, i, j, depth)
    ensures Depth(p) < depth && Depth(u) < depth
  {
    var t := Extend(p, u);
    assert MadeOf(g, c, i, j, e, k, t, p, u);
    MadeIsTree(g, c, r, d, i, j, e, k, t, p, u);
    DepthsSnoc(p.kids, u);
  }

  // ----- enough fuel

  lemma KeptSays(g: Parse, views: seq<S.View>, vs: seq<S.View>, c: nat, i: nat, j: nat)
    requires Ready(g, views, vs) && j < |vs| && vs[j].Has(c, i)
    ensures g.Ok() && g.Says(c, i, j)
  {
    assert Fine(g, views, vs, j);
  }

  lemma KeptLists(g: Parse, views: seq<S.View>, vs: seq<S.View>, j: nat)
    requires Ready(g, views, vs) && j < |vs|
    ensures |vs[j].done| == |vs[j].todo| == g.Confs()
  {
    assert Fine(g, views, vs, j);
  }

  /** A kept entry whose trees are no deeper than the fuel has its trees read. */
  lemma {:induction false} Enough(g: Parse, views: seq<S.View>, vs: seq<S.View>, c: nat, i: nat, j: nat, fuel: nat)
    requires Ready(g, views, vs) && j < |vs| && vs[j].Has(c, i) && Shallow(g, c, i, j, fuel)
    ensures TreesOf(g, vs, c, i, j, fuel).Some?
    decreases fuel, 0, 0
  {
    KeptSays(g, views, vs, c, i, j);
    var t := SomeTree(g, c, i, j);
    DepthPositive(t);
    NamedStarts(g, c);
    if g.t.names[c].None? {
      var r, d := Locate(g.n, g.rules, |g.rules|, c);
      DotStep(g.n, g.rules, g.t, r, d);
      assert g.t.names[Dot(g.n, g.rules, r, d)].Some? <==> d == 0;
      DotStep(g.n, g.rules, g.t, r, d - 1);
      assert At(g, c, r, d) && g.t.steps[c - 1] == g.rules[r].rhs[d - 1];
      Sizes(g);
      var nt := g.rules[r].rhs[d - 1];
      var l := g.t.enders[nt];
      forall e: nat | e in l ensures g.After(e, nt) { Enders(g.n, g.rules, g.t, nt, e); }
      hide Layout, Over, Ready, TreeFor;
      EnoughEnders(g, views, vs, c, r, d, i, j, l, [], fuel);
    }
  }

  lemma {:induction false} EnoughEnders(
    g: Parse, views: seq<S.View>, vs: seq<S.View>, c: nat, r: nat, d: nat, i: nat, j: nat, l: seq<nat>, acc: seq<Tree>, fuel: nat
  )
    requires Ready(g, views, vs) && At(g, c, r, d) && j < |vs| && fuel > 0 && Shallow(g, c, i, j, fuel)
    requires forall e: nat :: e in l ==> g.After(e, g.rules[r].rhs[d - 1])
    ensures c > 0 && OverEnders(g, vs, c, i, j, l, acc, fuel - 1).Some?
    decreases fuel - 1, 2, |l|
  {
    hide Ready, Shallow;
    if l != [] {
      assert l[0] in l;
      KeptLists(g, views, vs, j);
      EnoughStarts(g, views, vs, c, r, d, i, j, l[0], vs[j].done[l[0]], acc, fuel);
      var o := OverStarts(g, vs, c, i, j, l[0], vs[j].done[l[0]], acc, fuel - 1);
      forall x | x in l[1..] ensures x in l {}
      EnoughEnders(g, views, vs, c, r, d, i, j, l[1..], o.value, fuel);
    }
  }

  lemma {:induction false} EnoughStarts(
    g: Parse, views: seq<S.View>, vs: seq<S.View>, c: nat, r: nat, d: nat, i: nat, j: nat, e: nat, ks: seq<nat>, acc: seq<Tree>, fuel: nat
  )
    requires Ready(g, views, vs) && At(g, c, r, d) && j < |vs| && fuel > 0 && Shallow(g, c, i, j, fuel)
    requires g.After(e, g.rules[r].rhs[d - 1]) && forall k :: k in ks ==> vs[j].Has(e, k)
    ensures c > 0 && OverStarts(g, vs, c, i, j, e, ks, acc, fuel - 1).Some?
    decreases fuel - 1, 1, |ks|
  {
    hide Ready, Shallow;
    if ks != [] {
      var k := ks[0];
      assert k in ks;
      if k >= i && k < |vs| && vs[k].Has(c - 1, i) {
        KeptSays(g, views, vs, c - 1, i, k);
        KeptSays(g, views, vs, e, k, j);
        PartsShallow(g, c, r, d, i, j, e, k, fuel);
        Enough(g, views, vs, c - 1, i, k, fuel - 1);
        Enough(g, views, vs, e, k, j, fuel - 1);
        var ps, us := TreesOf(g, vs, c - 1, i, k, fuel - 1).value, TreesOf(g, vs, e, k, j, fuel - 1).value;
        EnoughStarts(g, views, vs, c, r, d, i, j, e, ks[1..], Cross(ps, us, acc), fuel);
      } else {
        EnoughStarts(g, views, vs, c, r, d, i, j, e, ks[1..], acc, fuel);
      }
    }
  }
}
