/** The backward pass of the Earley benchmark, which keeps the entries that take part in a parse of the
    goal, and the question whether a symbol was parsed. */
module EarleyPrune {
  import opened Common
  import opened EarleyGrammar
  import opened EarleyChart
  import opened EarleyParser
  import opened EarleyUse
  import opened EarleySource
  import S = EarleySets

  ghost function Views(star: seq<S.State>): seq<S.View>
    reads star
  {
    seq(|star|, k requires 0 <= k < |star| reads star => star[k].view)
  }

  /** The states after number `j`. */
  ghost function Upper(star: seq<S.State>, j: nat): seq<(S.View, int)>
    requires j < |star|
    reads star
  {
    seq(|star| - j - 1, x requires 0 <= x < |star| - j - 1 reads star => (star[j + 1 + x].view, star[j + 1 + x].work))
  }

  /** Every entry of the state takes part in a parse of the goal. */
  ghost predicate AllUseful(g: Parse, v: S.View, j: nat) {
    forall c, i :: v.Has(c, i) ==> 0 <= i && Useful(g, c, i, j)
  }

  /** The kept states: they hold only entries of the forward pass that take part in a parse of the goal. */
  ghost predicate Kept(g: Parse, views: seq<S.View>, star: seq<S.State>)
    reads star
  {
    |star| == |views| && forall k :: 0 <= k < |star| ==>
      star[k].Valid() && star[k].num == k && |star[k].sets| == g.Confs() && star[k].NoneEmpty() &&
      Within(star[k].view, views[k]) && AllUseful(g, star[k].view, k)
  }

  ghost predicate Within(v: S.View, w: S.View) {
    forall c, i :: v.Has(c, i) ==> w.Has(c, i)
  }

  ghost predicate GrowsAll(vs: seq<S.View>, vs': seq<S.View>) {
    |vs'| == |vs| && forall k :: 0 <= k < |vs| ==> Grows(vs[k], vs'[k])
  }

  lemma GrowsAllTrans(us: seq<S.View>, vs: seq<S.View>, ws: seq<S.View>)
    requires GrowsAll(us, vs) && GrowsAll(vs, ws)
    ensures GrowsAll(us, ws)
  {
    forall k | 0 <= k < |us| ensures Grows(us[k], ws[k]) {
      assert Grows(us[k], vs[k]) && Grows(vs[k], ws[k]);
    }
  }

  lemma StarApart(g: Parse, views: seq<S.View>, star: seq<S.State>, k: nat)
    requires Kept(g, views, star) && k < |star|
    ensures forall j :: 0 <= j < |star| && j != k ==> star[j] != star[k]
  {
  }

  /** The states of the forward pass, with their views, and the kept ones are different objects. */
  ghost predicate Both(g: Parse, states: seq<S.State>, views: seq<S.View>, star: seq<S.State>)
    reads states, star
  {
    Parsed(g, states, views) && Kept(g, views, star) &&
    forall x, y :: 0 <= x < |states| && 0 <= y < |star| ==> states[x] != star[y]
  }

  /** `conf-set-adjoin**`: keep an entry if it is one of the forward pass. */
  method Keep(g: Parse, states: seq<S.State>, star: seq<S.State>, k: nat, c: nat, i: nat, ghost views: seq<S.View>) returns (r: bool)
    requires Both(g, states, views, star) && k < |star| && c < g.Confs() && i <= k && (views[k].Has(c, i) ==> Useful(g, c, i, k))
    modifies star
    ensures Both(g, states, views, star) && GrowsAll(old(Views(star)), Views(star)) && r == views[k].Has(c, i)
    ensures r ==> star[k].view.Has(c, i)
    ensures forall j :: k <= j < |star| ==> Upper(star, j) == old(Upper(star, j))
  {
    hide Parsed, S.State.Valid, S.State.NoneEmpty, Within, AllUseful, Useful;
    StarApart(g, views, star, k);
    ViewSize(star[k]);
    ForwardState(g, states, views, k);
    r := states[k].Holds(c, i);
    ghost var vs := Views(star);
    GrowsRefl(vs);
    if r {
      star[k].Add(c, i);
      WithinAdded(vs[k], star[k].view, views[k], c, i);
      UsefulAdded(g, vs[k], star[k].view, k, c, i);
      assert |star[k].view.todo| == |vs[k].todo| by { ViewSize(star[k]); }
    }
  }

  lemma ViewSize(st: S.State)
    requires st.Valid()
    ensures |st.view.todo| == |st.view.done| == |st.sets|
  {
  }

  lemma ForwardState(g: Parse, states: seq<S.State>, views: seq<S.View>, k: nat)
    requires Parsed(g, states, views) && k < |views|
    ensures k < |states| && states[k].Valid() && states[k].num == k && |states[k].sets| == g.Confs() && states[k].view == views[k]
  {
    assert Good(g, states[k], k);
  }

  lemma WithinAdded(v: S.View, v': S.View, w: S.View, c: nat, i: nat)
    requires Within(v, w) && w.Has(c, i)
    requires forall e, k {:trigger v'.Has(e, k)} :: v'.Has(e, k) ==> v.Has(e, k) || (e == c && k == i)
    ensures Within(v', w)
  {
  }

  lemma UsefulAdded(g: Parse, v: S.View, v': S.View, j: nat, c: nat, i: nat)
    requires AllUseful(g, v, j) && Useful(g, c, i, j)
    requires forall e, k {:trigger v'.Has(e, k)} :: v'.Has(e, k) ==> v.Has(e, k) || (e == c && k == i)
    ensures AllUseful(g, v', j)
  {
    hide Useful;
  }

  /** The symbols around the dot of an entry to be divided. */
  ghost predicate Around(g: Parse, c: nat, e: nat, nt: nat) {
    g.Ok() && c > 0 && g.Before(c - 1, nt) && g.After(e, nt)
  }

  /** Both parts of a kept entry take part in a parse. */
  lemma KeptPartsUseful(g: Parse, states: seq<S.State>, views: seq<S.View>, star: seq<S.State>, c: nat, i: nat, j: nat, e: nat, nt: nat, k: nat)
    requires Both(g, states, views, star) && j < |star| && star[j].view.Has(c, i) && Around(g, c, e, nt) && k <= j
    requires views[j].Has(e, k) && views[k].Has(c - 1, i)
    ensures Useful(g, c - 1, i, k) && Useful(g, e, k, j)
  {
    hide Layout, Over, Useful, Claim, Within;
    assert Good(g, states[j], j) && g.Says(e, k, j);
    assert Good(g, states[k], k) && g.Says(c - 1, i, k);
    PartsUseful(g, c, nt, e, i, k, j);
  }

  /** The parts of an entry: the symbol before the dot was derived by `e` from `k` to `j`, and the
      symbols before it from `i` to `k`. */
  ghost predicate Parts(views: seq<S.View>, c: nat, i: nat, j: nat, e: int, k: int) {
    j < |views| && i <= k <= j && k < |views| && views[j].Has(e, k) && views[k].Has(c - 1, i)
  }

  ghost predicate PartsKept(vs: seq<S.View>, c: nat, i: nat, j: nat, e: int, k: int) {
    j < |vs| && 0 <= k < |vs| && vs[k].Has(c - 1, i) && vs[j].Has(e, k)
  }

  lemma PartsGrow(vs: seq<S.View>, vs': seq<S.View>, c: nat, i: nat, j: nat, e: int, k: int)
    requires PartsKept(vs, c, i, j, e, k) && GrowsAll(vs, vs')
    ensures PartsKept(vs', c, i, j, e, k)
  {
    assert Grows(vs[k], vs'[k]) && Grows(vs[j], vs'[j]);
  }

  lemma BothSizes(g: Parse, states: seq<S.State>, views: seq<S.View>, star: seq<S.State>)
    requires Both(g, states, views, star)
    ensures |states| == |views| == |star| == |g.toks| + 1
  {
  }

  lemma ForwardList(g: Parse, states: seq<S.State>, views: seq<S.View>, j: nat, e: nat)
    requires Parsed(g, states, views) && j < |states| && e < g.Confs()
    ensures e < |states[j].sets| && |views[j].done| == g.Confs()
    ensures forall k :: views[j].Has(e, k) ==> k in views[j].done[e]
    ensures forall x :: 0 <= x < |views[j].done[e]| ==> views[j].done[e][x] <= j && views[j].Has(e, views[j].done[e][x])
    ensures states[j].sets[e].Absent? ==> views[j].done[e] == []
    ensures var s := states[j].sets[e]; s.Vector? ==> |s.v| == j + 6 && S.Linked(s.v, s.v[2], views[j].done[e])
  {
    assert Good(g, states[j], j);
    states[j].Bounded(e);
    states[j].AllDone();
  }

  /** Keep both parts of an entry for one position `k` where the last symbol may start. */
  method KeepParts(g: Parse, states: seq<S.State>, star: seq<S.State>, c: nat, i: nat, j: nat, e: nat, k: nat, ghost nt: nat, ghost views: seq<S.View>)
    requires Both(g, states, views, star) && 0 < c <= g.Confs() && j < |star| && e < g.Confs() && k <= j && views[j].Has(e, k)
    requires Around(g, c, e, nt) && star[j].view.Has(c, i)
    modifies star
    ensures Upper(star, j) == old(Upper(star, j))
    ensures Both(g, states, views, star) && GrowsAll(old(Views(star)), Views(star))
    ensures Parts(views, c, i, j, e, k) ==> PartsKept(Views(star), c, i, j, e, k)
  {
    hide Parsed, Kept, Within, Useful, Around;
    BothSizes(g, states, views, star);
    if views[k].Has(c - 1, i) { KeptPartsUseful(g, states, views, star, c, i, j, e, nt, k); }
    if k >= i {
      var r := Keep(g, states, star, k, c - 1, i, views);
      ghost var vs := Views(star);
      if r {
        var r2 := Keep(g, states, star, j, e, k, views);
        assert Grows(vs[k], Views(star)[k]);
      }
    }
  }

  /** Keep the parts of an entry for all processed positions `d` of the set of `e`, whose vector is `v`. */
  method KeepAlong(
    g: Parse, states: seq<S.State>, star: seq<S.State>, c: nat, i: nat, j: nat, e: nat, v: seq<int>, ghost d: seq<nat>, ghost nt: nat, ghost views: seq<S.View>
  )
    requires Both(g, states, views, star) && 0 < c <= g.Confs() && j < |star| && e < g.Confs()
    requires Around(g, c, e, nt) && star[j].view.Has(c, i)
    requires |v| > 5 && S.Linked(v, v[2], d) && forall x :: 0 <= x < |d| ==> d[x] <= j && views[j].Has(e, d[x])
    modifies star
    ensures Upper(star, j) == old(Upper(star, j))
    ensures Both(g, states, views, star) && GrowsAll(old(Views(star)), Views(star))
    ensures forall k :: k in d && Parts(views, c, i, j, e, k) ==> PartsKept(Views(star), c, i, j, e, k)
  {
    hide Both, Parts, PartsKept, Grows, Around;
    GrowsRefl(Views(star));
    var k := v[2];
    ghost var x := 0;
    while k >= 0
      invariant 0 <= x <= |d| && k == (if x < |d| then d[x] else -1)
      invariant Upper(star, j) == old(Upper(star, j)) && Both(g, states, views, star) && GrowsAll(old(Views(star)), Views(star))
      invariant forall y :: 0 <= y < x && Parts(views, c, i, j, e, d[y]) ==> PartsKept(Views(star), c, i, j, e, d[y])
      decreases |d| - x
    {
      ghost var vs := Views(star);
      GrowsHas(old(Views(star)), vs, j, c, i);
      KeepParts(g, states, star, c, i, j, e, k, nt, views);
      GrowsAllTrans(old(Views(star)), vs, Views(star));
      forall y | 0 <= y < x && Parts(views, c, i, j, e, d[y]) ensures PartsKept(Views(star), c, i, j, e, d[y]) {
        PartsGrow(vs, Views(star), c, i, j, e, d[y]);
      }
      assert S.Link(v, d[x]) == S.Next(d, x);
      k := v[k + 5];
      x := x + 1;
    }
  }

  lemma GrowsRefl(vs: seq<S.View>)
    ensures GrowsAll(vs, vs)
  {
  }

  /** Keep the parts of an entry for one ender of the symbol before the dot. */
  method KeepEnder(g: Parse, states: seq<S.State>, star: seq<S.State>, c: nat, i: nat, j: nat, e: nat, ghost nt: nat, ghost views: seq<S.View>)
    requires Both(g, states, views, star) && 0 < c <= g.Confs() && j < |star| && e < g.Confs()
    requires Around(g, c, e, nt) && star[j].view.Has(c, i)
    modifies star
    ensures Upper(star, j) == old(Upper(star, j))
    ensures Both(g, states, views, star) && GrowsAll(old(Views(star)), Views(star))
    ensures forall k :: Parts(views, c, i, j, e, k) ==> PartsKept(Views(star), c, i, j, e, k)
  {
    hide Parsed, Kept, Within, S.Linked, PartsKept, Grows, Around;
    BothSizes(g, states, views, star);
    ForwardList(g, states, views, j, e);
    GrowsRefl(Views(star));
    match states[j].sets[e] {
      case Absent =>
      case Vector(v) => KeepAlong(g, states, star, c, i, j, e, v, views[j].done[e], nt, views);
    }
  }

  /** Both parts of the entry are kept, however it can be divided. */
  ghost predicate Divided(g: Parse, views: seq<S.View>, vs: seq<S.View>, c: nat, i: nat, j: nat) {
    forall nt, e, k :: g.n <= c && g.Before(c - 1, nt) && g.After(e, nt) && Parts(views, c, i, j, e, k) ==> PartsKept(vs, c, i, j, e, k)
  }

  lemma DividedGrows(g: Parse, views: seq<S.View>, vs: seq<S.View>, vs': seq<S.View>, c: nat, i: nat, j: nat)
    requires Divided(g, views, vs, c, i, j) && GrowsAll(vs, vs')
    ensures Divided(g, views, vs', c, i, j)
  {
    forall nt, e, k | g.n <= c && g.Before(c - 1, nt) && g.After(e, nt) && Parts(views, c, i, j, e, k) ensures PartsKept(vs', c, i, j, e, k) {
      PartsGrow(vs, vs', c, i, j, e, k);
    }
  }

  /** Keep all parts of an entry. */
  method Divide(g: Parse, states: seq<S.State>, star: seq<S.State>, c: nat, i: nat, j: nat, ghost views: seq<S.View>)
    requires g.Ok() && Both(g, states, views, star) && c < g.Confs() && j < |star| && star[j].view.Has(c, i)
    modifies star
    ensures Upper(star, j) == old(Upper(star, j))
    ensures Both(g, states, views, star) && GrowsAll(old(Views(star)), Views(star)) && Divided(g, views, Views(star), c, i, j)
  {
    hide Layout, Over, Both, Parts, PartsKept, Grows;
    GrowsRefl(Views(star));
    if c >= g.n && c > 0 && g.t.steps[c - 1] >= 0 {
      Sizes(g);
      StepRange(g, c - 1);
      var nt := g.t.steps[c - 1];
      var l := g.t.enders[nt];
      var x := 0;
      while x < |l|
        invariant x <= |l| && Upper(star, j) == old(Upper(star, j)) && Both(g, states, views, star) && GrowsAll(old(Views(star)), Views(star))
        invariant forall y, k :: 0 <= y < x && Parts(views, c, i, j, l[y], k) ==> PartsKept(Views(star), c, i, j, l[y], k)
      {
        Enders(g.n, g.rules, g.t, nt, l[x]);
        ghost var vs := Views(star);
        GrowsHas(old(Views(star)), vs, j, c, i);
        assert Around(g, c, l[x], nt);
        KeepEnder(g, states, star, c, i, j, l[x], nt, views);
        GrowsAllTrans(old(Views(star)), vs, Views(star));
        forall y, k | 0 <= y < x && Parts(views, c, i, j, l[y], k) ensures PartsKept(Views(star), c, i, j, l[y], k) {
          PartsGrow(vs, Views(star), c, i, j, l[y], k);
        }
        x := x + 1;
      }
      forall e | g.After(e, nt) ensures e in l { Enders(g.n, g.rules, g.t, nt, e); }
    }
  }

  /** The processed entries of state `j` are divided. */
  ghost predicate AllDivided(g: Parse, views: seq<S.View>, vs: seq<S.View>, j: nat)
    requires j < |vs|
  {
    |vs[j].done| == g.Confs() && forall c, i :: 0 <= c < g.Confs() && i in vs[j].done[c] ==> Divided(g, views, vs, c, i, j)
  }

  lemma KeptSize(g: Parse, states: seq<S.State>, views: seq<S.View>, star: seq<S.State>, j: nat)
    requires Both(g, states, views, star) && j < |star|
    ensures |star[j].view.todo| == |star[j].view.done| == g.Confs()
  {
    hide Parsed;
    ViewSize(star[j]);
  }

  /** Divide the entries of `c` from the `m`-th processed position on. */
  method DivideNew(g: Parse, states: seq<S.State>, star: seq<S.State>, c: nat, head: int, j: nat, ghost m: nat, ghost views: seq<S.View>)
    requires g.Ok() && Both(g, states, views, star) && c < g.Confs() && j < |star| && |star[j].view.done| == g.Confs()
    requires m < |star[j].view.done[c]| && head == star[j].view.done[c][m]
    modifies star
    ensures Upper(star, j) == old(Upper(star, j))
    ensures Both(g, states, views, star) && GrowsAll(old(Views(star)), Views(star))
    ensures forall x :: m <= x < |old(star[j].view.done[c])| ==> Divided(g, views, Views(star), c, old(star[j].view.done[c])[x], j)
  {
    hide Layout, Over, Both, Grows, Divided;
    GrowsRefl(Views(star));
    ghost var vs0, d := Views(star), star[j].view.done[c];
    KeptSize(g, states, views, star, j);
    var i := head;
    ghost var k := m;
    while i >= 0
      invariant m <= k <= |d| && i == (if k < |d| then d[k] else -1)
      invariant Both(g, states, views, star) && GrowsAll(old(Views(star)), Views(star)) && Upper(star, j) == old(Upper(star, j))
      invariant forall x :: m <= x < k ==> Divided(g, views, Views(star), c, d[x], j)
      decreases |d| - k
    {
      ghost var vs := Views(star);
      assert d[k] in vs0[j].done[c] && vs0[j].Has(c, i);
      GrowsHas(vs0, vs, j, c, i);
      Divide(g, states, star, c, i, j, views);
      GrowsAllTrans(old(Views(star)), vs, Views(star));
      forall x | m <= x < k ensures Divided(g, views, Views(star), c, d[x], j) {
        DividedGrows(g, views, vs, Views(star), c, d[x], j);
      }
      SameDone(old(Views(star)), Views(star), j);
      KeptLink(g, states, views, star, j, c, k);
      i := star[j].sets[c].v[i + 5];
      k := k + 1;
    }
  }

  lemma SameDone(vs: seq<S.View>, vs': seq<S.View>, j: nat)
    requires GrowsAll(vs, vs') && j < |vs|
    ensures vs'[j].done == vs[j].done
  {
    assert Grows(vs[j], vs'[j]);
  }

  lemma KeptLink(g: Parse, states: seq<S.State>, views: seq<S.View>, star: seq<S.State>, j: nat, c: nat, k: nat)
    requires Both(g, states, views, star) && j < |star| && c < g.Confs() && |star[j].view.done| == g.Confs() && k < |star[j].view.done[c]|
    ensures c < |star[j].sets| && star[j].sets[c].Vector? && star[j].view.done[c][k] + 5 < |star[j].sets[c].v|
    ensures star[j].sets[c].v[star[j].view.done[c][k] + 5] == S.Next(star[j].view.done[c], k)
  {
    star[j].Bounded(c);
    assert S.Link(star[j].sets[c].v, star[j].view.done[c][k]) == S.Next(star[j].view.done[c], k);
  }

  ghost predicate AllWithin(vs: seq<S.View>, vs': seq<S.View>) {
    |vs'| == |vs| && forall k :: 0 <= k < |vs| ==> Within(vs[k], vs'[k])
  }

  lemma DividedWithin(g: Parse, views: seq<S.View>, vs: seq<S.View>, vs': seq<S.View>, c: nat, i: nat, j: nat)
    requires Divided(g, views, vs, c, i, j) && AllWithin(vs, vs')
    ensures Divided(g, views, vs', c, i, j)
  {
    forall nt, e, k | g.n <= c && g.Before(c - 1, nt) && g.After(e, nt) && Parts(views, c, i, j, e, k) ensures PartsKept(vs', c, i, j, e, k) {
      assert PartsKept(vs, c, i, j, e, k) && Within(vs[k], vs'[k]) && Within(vs[j], vs'[j]);
    }
  }

  lemma PoppedWithin(v: S.View, c: nat, confs: nat, w: S.View)
    requires Popping(v, c, confs)
    ensures Within(v, v.Popped()) && (Within(v, w) ==> Within(v.Popped(), w))
  {
    forall d, i ensures v.Popped().Has(d, i) <==> v.Has(d, i) {}
  }

  lemma GrownWithin(vs: seq<S.View>, us: seq<S.View>, ws: seq<S.View>, c: nat, j: nat, confs: nat)
    requires j < |vs| && Popping(vs[j], c, confs) && us == vs[j := vs[j].Popped()] && GrowsAll(us, ws)
    ensures AllWithin(vs, ws)
  {
    PoppedWithin(vs[j], c, confs, vs[j]);
    forall k | 0 <= k < |vs| ensures Within(vs[k], ws[k]) { assert Grows(us[k], ws[k]) && Within(vs[k], us[k]); }
  }

  lemma TurnDivided(g: Parse, views: seq<S.View>, vs: seq<S.View>, us: seq<S.View>, ws: seq<S.View>, c: nat, j: nat)
    requires j < |vs| && Popping(vs[j], c, g.Confs()) && us == vs[j := vs[j].Popped()] && GrowsAll(us, ws)
    requires AllDivided(g, views, vs, j)
    requires forall x :: |vs[j].done[c]| <= x < |us[j].done[c]| ==> Divided(g, views, ws, c, us[j].done[c][x], j)
    ensures AllDivided(g, views, ws, j)
  {
    hide Divided;
    GrownWithin(vs, us, ws, c, j, g.Confs());
    SameDone(us, ws, j);
    forall d, i | 0 <= d < g.Confs() && i in ws[j].done[d] ensures Divided(g, views, ws, d, i, j) {
      if i in vs[j].done[d] {
        DividedWithin(g, views, vs, ws, d, i, j);
      } else {
        var x :| 0 <= x < |us[j].done[c]| && us[j].done[c][x] == i;
        assert x >= |vs[j].done[c]|;
      }
    }
  }

  method PopStar(g: Parse, states: seq<S.State>, star: seq<S.State>, j: nat, ghost views: seq<S.View>) returns (c: nat, head: int)
    requires Both(g, states, views, star) && j < |star| && star[j].work >= 0
    modifies star
    ensures Both(g, states, views, star) && Upper(star, j) == old(Upper(star, j))
    ensures Popping(old(star[j].view), c, g.Confs()) && old(star[j].view.todo[c]) != [] && head == old(star[j].view.todo[c][0])
    ensures Views(star) == old(Views(star))[j := old(star[j].view).Popped()]
  {
    hide Parsed, S.State.Valid, S.State.NoneEmpty, Within;
    StarApart(g, views, star, j);
    ViewSize(star[j]);
    ghost var v := star[j].view;
    c, head := star[j].Pop();
    PoppedWithin(v, c, g.Confs(), views[j]);
  }

  /** One turn of the backward loop. */
  method TurnBack(g: Parse, states: seq<S.State>, star: seq<S.State>, j: nat, ghost views: seq<S.View>)
    requires g.Ok() && Both(g, states, views, star) && j < |star| && star[j].work >= 0 && AllDivided(g, views, Views(star), j)
    modifies star
    ensures Upper(star, j) == old(Upper(star, j))
    ensures Both(g, states, views, star) && AllDivided(g, views, Views(star), j)
    ensures Total(star[j].view.done) > old(Total(star[j].view.done))
    ensures AllWithin(old(Views(star)), Views(star))
    ensures forall k :: 0 <= k < |star| && k != j ==> star[k].view.done == old(star[k].view.done)
  {
    hide Layout, Over, Parsed, Grows, Divided, S.State.Valid, Within;
    StarApart(g, views, star, j);
    ghost var vs := Views(star);
    var c, head := PopStar(g, states, star, j, views);
    ghost var us := Views(star);
    TotalUpdate(vs[j].done, c, vs[j].done[c] + vs[j].todo[c]);
    hide Both;
    assert star[j].view == us[j] == vs[j].Popped();
    DivideNew(g, states, star, c, head, j, |vs[j].done[c]|, views);
    SameDone(us, Views(star), j);
    TurnDivided(g, views, vs, us, Views(star), c, j);
    GrownWithin(vs, us, Views(star), c, j, g.Confs());
    forall k | 0 <= k < |star| && k != j ensures star[k].view.done == vs[k].done { SameDone(us, Views(star), k); }
  }

  /** State `j` is done with: every entry of it is processed and divided. */
  ghost predicate Settled(g: Parse, views: seq<S.View>, star: seq<S.State>, j: nat)
    requires j < |star|
    reads star
  {
    star[j].work < 0 && AllDivided(g, views, Views(star), j)
  }

  lemma SettleStart(g: Parse, states: seq<S.State>, views: seq<S.View>, star: seq<S.State>, j: nat)
    requires Both(g, states, views, star) && j < |star| && forall c :: 0 <= c < |star[j].view.done| ==> star[j].view.done[c] == []
    ensures AllDivided(g, views, Views(star), j)
  {
    hide Parsed;
    ViewSize(star[j]);
  }

  lemma WithinRefl(vs: seq<S.View>)
    ensures AllWithin(vs, vs)
  {
  }

  lemma WithinTrans(us: seq<S.View>, vs: seq<S.View>, ws: seq<S.View>)
    requires AllWithin(us, vs) && AllWithin(vs, ws)
    ensures AllWithin(us, ws)
  {
    forall k | 0 <= k < |us| ensures Within(us[k], ws[k]) { assert Within(us[k], vs[k]) && Within(vs[k], ws[k]); }
  }

  lemma KeptRoom(g: Parse, states: seq<S.State>, views: seq<S.View>, star: seq<S.State>, j: nat)
    requires Both(g, states, views, star) && j < |star|
    ensures Total(star[j].view.done) <= Capacity(g.Confs(), j + 1)
  {
    hide Parsed;
    ViewSize(star[j]);
    var done := star[j].view.done;
    forall c | 0 <= c < |done| ensures |done[c]| <= j + 1 {
      star[j].Bounded(c);
      Pigeonhole(done[c], j + 1);
    }
    TotalBound(done, j + 1);
  }

  lemma AllDividedWithin(g: Parse, views: seq<S.View>, vs: seq<S.View>, vs': seq<S.View>, j: nat)
    requires j < |vs| && AllDivided(g, views, vs, j) && AllWithin(vs, vs') && vs'[j].done == vs[j].done
    ensures AllDivided(g, views, vs', j)
  {
    forall c, i | 0 <= c < g.Confs() && i in vs'[j].done[c] ensures Divided(g, views, vs', c, i, j) {
      DividedWithin(g, views, vs, vs', c, i, j);
    }
  }

  /** The turns of one state. */
  method Turns(g: Parse, states: seq<S.State>, star: seq<S.State>, j: nat, ghost views: seq<S.View>)
    requires g.Ok() && Both(g, states, views, star) && j < |star| && AllDivided(g, views, Views(star), j)
    modifies star
    ensures Both(g, states, views, star) && star[j].work < 0 && AllDivided(g, views, Views(star), j)
    ensures AllWithin(old(Views(star)), Views(star)) && Upper(star, j) == old(Upper(star, j))
    ensures forall k :: 0 <= k < |star| && k != j ==> star[k].view.done == old(star[k].view.done)
  {
    hide Layout, Over, Both, Divided, AllDivided, AllWithin;
    ghost var vs0 := Views(star);
    WithinRefl(vs0);
    while star[j].work >= 0
      invariant Both(g, states, views, star) && AllDivided(g, views, Views(star), j) && AllWithin(vs0, Views(star))
      invariant forall k :: 0 <= k < |star| && k != j ==> star[k].view.done == vs0[k].done
      invariant Upper(star, j) == old(Upper(star, j))
      decreases Capacity(g.Confs(), j + 1) - Total(star[j].view.done)
    {
      KeptRoom(g, states, views, star, j);
      ghost var vs := Views(star);
      TurnBack(g, states, star, j, views);
      WithinTrans(vs0, vs, Views(star));
      KeptRoom(g, states, views, star, j);
    }
  }

  /** Settle one state when the later ones are settled. */
  method Settle(g: Parse, states: seq<S.State>, star: seq<S.State>, j: nat, ghost views: seq<S.View>)
    requires g.Ok() && Both(g, states, views, star) && j < |star|
    requires forall k, c :: 0 <= k <= j && 0 <= c < |star[k].view.done| ==> star[k].view.done[c] == []
    requires forall k :: j < k < |star| ==> Settled(g, views, star, k)
    modifies star
    ensures Both(g, states, views, star) && AllWithin(old(Views(star)), Views(star))
    ensures forall k, c :: 0 <= k < j && 0 <= c < |star[k].view.done| ==> star[k].view.done[c] == []
    ensures forall k :: j <= k < |star| ==> Settled(g, views, star, k)
  {
    hide Layout, Over, Both, Divided, AllDivided, AllWithin;
    ghost var vs0, up := Views(star), Upper(star, j);
    SettleStart(g, states, views, star, j);
    assert forall k :: j < k < |star| ==> AllDivided(g, views, vs0, k) by {
      forall k | j < k < |star| ensures AllDivided(g, views, vs0, k) { assert Settled(g, views, star, k); }
    }
    assert forall k :: j < k < |star| ==> star[k].work < 0 by {
      forall k | j < k < |star| ensures star[k].work < 0 { assert Settled(g, views, star, k); }
    }
    Turns(g, states, star, j, views);
    forall k | j < k < |star| ensures Settled(g, views, star, k) {
      assert Upper(star, j)[k - j - 1] == (star[k].view, star[k].work) && up[k - j - 1] == (vs0[k], old(star[k].work));
      assert AllDivided(g, views, vs0, k);
      AllDividedWithin(g, views, vs0, Views(star), k);
    }
  }

  /** The entries of the whole goal over the whole input are kept. */
  ghost predicate GoalKept(g: Parse, views: seq<S.View>, vs: seq<S.View>, j: nat) {
    j < |views| && j < |vs| && forall e :: g.After(e, 0) && views[j].Has(e, 0) ==> vs[j].Has(e, 0)
  }

  /** Keep the enders of the goal over the whole input. */
  method KeepGoal(g: Parse, states: seq<S.State>, star: seq<S.State>, ghost views: seq<S.View>)
    requires g.Ok() && Both(g, states, views, star) && |star| == |g.toks| + 1
    modifies star
    ensures Both(g, states, views, star) && GrowsAll(old(Views(star)), Views(star)) && GoalKept(g, views, Views(star), |g.toks|)
  {
    hide Layout, Over, Both, Grows;
    BothSizes(g, states, views, star);
    GrowsRefl(Views(star));
    Sizes(g);
    var j := |g.toks|;
    if g.n > 0 {
      var l := g.t.enders[0];
      var x := 0;
      while x < |l|
        invariant x <= |l| && Both(g, states, views, star) && GrowsAll(old(Views(star)), Views(star))
        invariant forall y :: 0 <= y < x && views[j].Has(l[y], 0) ==> Views(star)[j].Has(l[y], 0)
      {
        Enders(g.n, g.rules, g.t, 0, l[x]);
        ghost var vs := Views(star);
        if views[j].Has(l[x], 0) { GoalEntry(g, states, views, star, l[x]); }
        var r := Keep(g, states, star, j, l[x], 0, views);
        GrowsAllTrans(old(Views(star)), vs, Views(star));
        forall y | 0 <= y < x && views[j].Has(l[y], 0) ensures Views(star)[j].Has(l[y], 0) { GrowsHas(vs, Views(star), j, l[y], 0); }
        x := x + 1;
      }
      forall e | g.After(e, 0) ensures e in l { Enders(g.n, g.rules, g.t, 0, e); }
    }
  }

  lemma GoalEntry(g: Parse, states: seq<S.State>, views: seq<S.View>, star: seq<S.State>, e: nat)
    requires g.Ok() && Both(g, states, views, star) && g.After(e, 0) && |g.toks| < |views| && views[|g.toks|].Has(e, 0)
    ensures Useful(g, e, 0, |g.toks|)
  {
    hide Layout, Over, Useful;
    assert Good(g, states[|g.toks|], |g.toks|) && g.Says(e, 0, |g.toks|);
    GoalUseful(g, e);
  }

  lemma GrowsHas(vs: seq<S.View>, vs': seq<S.View>, j: nat, c: int, i: int)
    requires GrowsAll(vs, vs') && j < |vs| && vs[j].Has(c, i)
    ensures vs'[j].Has(c, i)
  {
    assert Grows(vs[j], vs'[j]);
  }

  lemma BlankKept(g: Parse, states: seq<S.State>, views: seq<S.View>, star: seq<S.State>)
    requires Parsed(g, states, views) && |star| == |views| && forall k :: 0 <= k < |star| ==> Blank(g, star[k], k)
    requires forall x, y :: 0 <= x < |states| && 0 <= y < |star| ==> states[x] != star[y]
    ensures Both(g, states, views, star)
    ensures forall k, c :: 0 <= k < |star| && 0 <= c < |star[k].view.done| ==> star[k].view.done[c] == []
  {
    forall k | 0 <= k < |star| ensures star[k].Valid() && star[k].num == k && |star[k].sets| == g.Confs() && Within(star[k].view, views[k]) && AllUseful(g, star[k].view, k) {
      assert Blank(g, star[k], k);
    }
  }

  lemma StillEmpty(vs: seq<S.View>, vs': seq<S.View>)
    requires GrowsAll(vs, vs') && forall k, c :: 0 <= k < |vs| && 0 <= c < |vs[k].done| ==> vs[k].done[c] == []
    ensures forall k, c :: 0 <= k < |vs'| && 0 <= c < |vs'[k].done| ==> vs'[k].done[c] == []
  {
    forall k | 0 <= k < |vs| ensures vs'[k].done == vs[k].done { SameDone(vs, vs', k); }
  }

  /** Empty kept states with the goal's entries over the whole input. */
  method StartBack(g: Parse, states: seq<S.State>, ghost views: seq<S.View>) returns (star: seq<S.State>)
    requires g.Ok() && Parsed(g, states, views)
    ensures fresh(star) && Both(g, states, views, star) && GoalKept(g, views, Views(star), |g.toks|)
    ensures forall k, c :: 0 <= k < |star| && 0 <= c < |star[k].view.done| ==> star[k].view.done[c] == []
  {
    assert |views| == |g.toks| + 1;
    hide Layout, Over, Blank, Parsed, Kept, GoalKept;
    star := MakeStates(g, |g.toks|);
    BlankKept(g, states, views, star);
    ghost var vs := Views(star);
    KeepGoal(g, states, star, views);
    StillEmpty(vs, Views(star));
    forall k, c | 0 <= k < |star| && 0 <= c < |star[k].view.done| ensures star[k].view.done[c] == [] {
      assert Views(star)[k] == star[k].view;
    }
  }

  /** The backward pass: the kept states hold entries of the forward pass, among them those of the goal
      over the whole input, and with every entry its parts. */
  method Backward(g: Parse, states: seq<S.State>, ghost views: seq<S.View>) returns (star: seq<S.State>)
    requires g.Ok() && Parsed(g, states, views)
    ensures fresh(star) && Both(g, states, views, star) && GoalKept(g, views, Views(star), |g.toks|)
    ensures forall k :: 0 <= k < |star| ==> Settled(g, views, star, k)
  {
    hide Layout, Over, Both, GoalKept, Settled, AllWithin;
    star := StartBack(g, states, views);
    BothSizes(g, states, views, star);
    var j := |g.toks|;
    while j >= 0
      invariant -1 <= j <= |g.toks| && fresh(star) && Both(g, states, views, star) && GoalKept(g, views, Views(star), |g.toks|)
      invariant forall k, c :: 0 <= k <= j && 0 <= c < |star[k].view.done| ==> star[k].view.done[c] == []
      invariant forall k :: j < k < |star| ==> Settled(g, views, star, k)
    {
      ghost var vs := Views(star);
      Settle(g, states, star, j, views);
      GoalStays(g, views, vs, Views(star));
      j := j - 1;
    }
  }

  lemma GoalStays(g: Parse, views: seq<S.View>, vs: seq<S.View>, vs': seq<S.View>)
    requires GoalKept(g, views, vs, |g.toks|) && AllWithin(vs, vs')
    ensures GoalKept(g, views, vs', |g.toks|)
  {
    assert Within(vs[|g.toks|], vs'[|g.toks|]);
  }

  // ----- the questions

  ghost predicate Answer(g: Parse, vs: seq<S.View>, nt: nat, i: int, j: nat) {
    j < |vs| && exists e :: g.After(e, nt) && vs[j].Has(e, i)
  }

  /** `parse->parsed?`. A position `i` after `j` is looked up past the end of the vectors, so that the
      answer is true as soon as the symbol ends at `j` from any position, although nothing is derived there. */
  method IsParsed(g: Parse, nts: seq<string>, star: seq<S.State>, nt: string, i: nat, j: nat, ghost states: seq<S.State>, ghost views: seq<S.View>)
    returns (r: bool)
    requires g.Ok() && Distinct(nts) && |nts| == g.n && Both(g, states, views, star) && j < |star|
    ensures Index(nt, nts).None? ==> !r
    ensures Index(nt, nts).Some? && i <= j ==> (r <==> Answer(g, Views(star), Index(nt, nts).value, i, j))
    ensures Index(nt, nts).Some? && j < i ==> (r <==> exists k :: Answer(g, Views(star), Index(nt, nts).value, k, j))
  {
    IndexNone(nt, nts);
    hide Layout, Over, Parsed, S.State.Valid, Within;
    var n := Ind(nt, nts);
    if n.None? {
      return false;
    }
    Sizes(g);
    var l := g.t.enders[n.value];
    forall e: nat ensures e in l <==> g.After(e, n.value) { Enders(g.n, g.rules, g.t, n.value, e); }
    var x := 0;
    while x < |l|
      invariant x <= |l|
      invariant forall y :: 0 <= y < x && i <= j ==> !star[j].view.Has(l[y], i)
      invariant forall y, k :: 0 <= y < x && j < i ==> !star[j].view.Has(l[y], k)
    {
      assert l[x] in l && g.After(l[x], n.value);
      var there := star[j].Holds(l[x], i);
      star[j].Bounded(l[x]);
      if there {
        if j < i {
          ghost var k :| star[j].view.Has(l[x], k);
          assert Answer(g, Views(star), n.value, k, j);
        }
        return true;
      }
      x := x + 1;
    }
    return false;
  }

  /** A positive answer about positions in order is right, for every symbol. */
  lemma AnswerSound(g: Parse, states: seq<S.State>, views: seq<S.View>, star: seq<S.State>, nt: nat, i: nat, j: nat)
    requires g.Ok() && nt < g.n && Both(g, states, views, star) && Answer(g, Views(star), nt, i, j)
    ensures Derivable(g.rules, g.toks, nt, i, j)
  {
    hide Layout, Over, Claim, Derivable;
    var e :| g.After(e, nt) && Views(star)[j].Has(e, i);
    assert Within(star[j].view, views[j]) && views[j].Has(e, i);
    assert Good(g, states[j], j) && g.Says(e, i, j);
    DerivedBy(g, e, nt, i, j);
  }

  /** The answer about the goal over the whole input is right both ways. */
  lemma GoalExact(g: Parse, states: seq<S.State>, views: seq<S.View>, star: seq<S.State>)
    requires g.Ok() && 0 < g.n && Both(g, states, views, star) && GoalKept(g, views, Views(star), |g.toks|)
    ensures Answer(g, Views(star), 0, 0, |g.toks|) <==> Derivable(g.rules, g.toks, 0, 0, |g.toks|)
  {
    hide Layout, Over, Parsed, Kept, Derivable;
    BothSizes(g, states, views, star);
    if Answer(g, Views(star), 0, 0, |g.toks|) {
      AnswerSound(g, states, views, star, 0, 0, |g.toks|);
    }
    if Derivable(g.rules, g.toks, 0, 0, |g.toks|) {
      GoalFound(g, states, views);
    }
  }

  lemma GoalFound(g: Parse, states: seq<S.State>, views: seq<S.View>)
    requires g.Ok() && 0 < g.n && Parsed(g, states, views) && Derivable(g.rules, g.toks, 0, 0, |g.toks|)
    ensures exists e :: g.After(e, 0) && views[|g.toks|].Has(e, 0)
  {
    hide Layout, Over, Good;
    var u :| Derives(g.rules, g.toks, u, 0, 0) && 0 + Width(u) == |g.toks|;
    var ch := ChartOf(views);
    assert Predicted(g.t, ch, 0, 0);
    var e := Completeness(g.n, g.rules, g.t, g.toks, ch, u, 0, 0);
    Enders(g.n, g.rules, g.t, 0, e);
    assert In(ch, |g.toks|, e, 0);
    assert g.After(e, 0) && views[|g.toks|].Has(e, 0);
  }

  // ----- a parser for a grammar

  /** The numbers of the symbols that the lexer gave a token; unknown ones are dropped. */
  function Known(names: seq<string>, nts: seq<string>): (r: seq<nat>)
    ensures forall x :: x in r <==> exists k :: 0 <= k < |names| && Index(names[k], nts) == Some(x)
  {
    if names == [] then []
    else
      assert forall k :: 1 <= k < |names| ==> names[k] == names[1..][k - 1];
      var rest := Known(names[1..], nts);
      match Index(names[0], nts) case None => rest case Some(i) => [i] + rest
  }

  lemma KnownIs(names: seq<string>, nts: seq<string>)
    requires Distinct(nts)
    ensures TokenIs(names, nts, Known(names, nts))
  {
    forall x: nat ensures x in Known(names, nts) <==> x < |nts| && nts[x] in names {
      if x in Known(names, nts) {
        var k :| 0 <= k < |names| && Index(names[k], nts) == Some(x);
        IndexNone(names[k], nts);
      }
      if x < |nts| && nts[x] in names {
        var k :| 0 <= k < |names| && names[k] == nts[x];
        IndexAt(nts, x);
        assert Index(names[k], nts) == Some(x);
      }
    }
  }

  /** `make-parser`, and the tokens of an input. */
  method MakeParser(defs: seq<Def>, input: seq<seq<string>>) returns (nts: seq<string>, g: Parse)
    requires defs != []
    ensures Numbering(defs, input, nts, g.rules, g.toks) && g.Ok() && g.n == |nts|
  {
    nts := Symbols([], defs);
    var rules := AllRules(defs, nts);
    GoalFirst(defs);
    GrammarOver([], defs, nts);
    assert InOrder([], []);
    SymbolOrder([], [], defs);
    assert [] + Occurring(defs) == Occurring(defs);
    CompiledRules(defs, nts);
    var t := Compile(|nts|, rules);
    var toks := seq(|input|, k requires 0 <= k < |input| => Known(input[k], nts));
    g := Parse(|nts|, rules, t, toks);
    forall i | 0 <= i < |toks| ensures TokenIs(input[i], nts, toks[i]) { KnownIs(input[i], nts); }
    forall i, nt | 0 <= i < |toks| && nt in toks[i] ensures nt < g.n { assert TokenIs(input[i], nts, toks[i]); }
  }

  lemma IsDerivable(rules: seq<Rule>, toks: seq<seq<nat>>, t: Tree, nt: nat, i: nat)
    requires Derives(rules, toks, t, nt, i)
    ensures Derivable(rules, toks, nt, i, i + Width(t))
  {
  }

  lemma Numbers(defs: seq<Def>, input: seq<seq<string>>, nts: seq<string>, g: Parse)
    requires Numbering(defs, input, nts, g.rules, g.toks)
    ensures Distinct(nts) && nts != [] && Index(defs[0].head, nts) == Some(0) && |g.toks| == |input|
    ensures Sentence(defs, input) <==> Derivable(g.rules, g.toks, 0, 0, |input|)
  {
    if Derivable(g.rules, g.toks, 0, 0, |input|) {
      var t :| Derives(g.rules, g.toks, t, 0, 0) && 0 + Width(t) == |input|;
      TreeSentence(defs, input, nts, g.rules, g.toks, t);
    }
    if Sentence(defs, input) {
      var t := SentenceTree(defs, input, nts, g.rules, g.toks);
      IsDerivable(g.rules, g.toks, t, 0, 0);
    }
  }

  /** Is the whole input a sentence of the grammar? */
  method Recognize(defs: seq<Def>, input: seq<seq<string>>) returns (r: bool)
    requires defs != []
    ensures r <==> Sentence(defs, input)
  {
    var nts, g := MakeParser(defs, input);
    Numbers(defs, input, nts, g);
    hide Layout, Over, Both, Parsed, GoalKept, Derivable, Numbering, Sentence;
    var states, views := Forward(g);
    var star := Backward(g, states, views);
    BothSizes(g, states, views, star);
    GoalExact(g, states, views, star);
    r := IsParsed(g, nts, star, defs[0].head, 0, |g.toks|, states, views);
  }

  /** Was the goal parsed from after the end of the input to its end? No derivation ends before it starts, and
      yet the answer is true for every sentence. */
  method AskPastEnd(defs: seq<Def>, input: seq<seq<string>>) returns (r: bool)
    requires defs != []
    ensures !DerivedOver(defs, input, defs[0].head, |input| + 1, |input|) && (r <==> Sentence(defs, input))
  {
    var nts, g := MakeParser(defs, input);
    Numbers(defs, input, nts, g);
    hide Layout, Over, Both, Parsed, GoalKept, Derivable, Numbering, Sentence;
    var states, views := Forward(g);
    var star := Backward(g, states, views);
    BothSizes(g, states, views, star);
    GoalExact(g, states, views, star);
    GoalSomewhere(g, states, views, star);
    r := IsParsed(g, nts, star, defs[0].head, |g.toks| + 1, |g.toks|, states, views);
  }

  /** The goal ends at the end of the input only in a parse of the whole input. */
  lemma GoalSomewhere(g: Parse, states: seq<S.State>, views: seq<S.View>, star: seq<S.State>)
    requires Both(g, states, views, star) && |star| == |g.toks| + 1
    ensures forall k :: Answer(g, Views(star), 0, k, |g.toks|) ==> Derivable(g.rules, g.toks, 0, 0, |g.toks|)
  {
    hide Parsed, Uses, Derives;
    forall k | Answer(g, Views(star), 0, k, |g.toks|) ensures Derivable(g.rules, g.toks, 0, 0, |g.toks|) {
      var e :| g.After(e, 0) && Views(star)[|g.toks|].Has(e, k);
      assert AllUseful(g, star[|g.toks|].view, |g.toks|) && Useful(g, e, k, |g.toks|);
      var u :| Parses(g, u) && Uses(g, u, 0, e, k, |g.toks|);
    }
  }

  lemma GoalFirst(defs: seq<Def>)
    requires defs != []
    ensures var nts := Symbols([], defs);
            Distinct(nts) && 0 < |nts| && nts[0] == defs[0].head && Index(defs[0].head, nts) == Some(0)
  {
    var first := Adjoin([], defs[0].head);
    RulesGrow(first, defs[0].rules);
    SymbolsGrow(AddRules(first, defs[0].rules), defs[1..]);
    IndexAt(Symbols([], defs), 0);
  }
}
