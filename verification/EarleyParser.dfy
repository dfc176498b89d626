/** The parser of the Earley benchmark: the forward pass, the backward pruning and the question
    whether a symbol was parsed. */
module EarleyParser {
  import opened Common
  import opened EarleyGrammar
  import opened EarleyChart
  import S = EarleySets

  /** A grammar with its tables, and the symbols of each token of the input. */
  datatype Parse = Parse(n: nat, rules: seq<Rule>, t: Tables, toks: seq<seq<nat>>) {
    ghost predicate Ok() {
      Layout(n, rules, t) && Over(n, rules) && forall i, nt :: 0 <= i < |toks| && nt in toks[i] ==> nt < n
    }

    function Confs(): nat {
      |t.steps|
    }

    /** The symbol after the dot of a configuration, if any. */
    predicate Before(c: int, nt: int) {
      0 <= c < |t.steps| && t.steps[c] == nt && 0 <= nt < n
    }

    /** The dot is at the end of a rule for the symbol, or after a token of it. */
    predicate After(c: int, nt: int) {
      0 <= c < |t.steps| && t.steps[c] == nt - n && 0 <= nt < n
    }

    ghost predicate Says(c: int, i: int, j: nat) {
      0 <= c < |t.steps| && 0 <= i <= j && Claim(n, rules, toks, c, i, j)
    }
  }

  // ----- what the forward pass keeps

  /** Every entry of the state is right. */
  ghost predicate Truthful(g: Parse, v: S.View, j: nat) {
    |v.done| == |v.todo| == g.Confs() && forall c, i :: v.Has(c, i) ==> g.Says(c, i, j)
  }

  /** The rules of the symbol after the dot of a processed entry have been started. */
  ghost predicate Predicts(g: Parse, v: S.View, j: nat, c: int)
    requires |v.done| == g.Confs() && |g.t.starters| == g.n
  {
    0 <= c < g.Confs() && 0 <= g.t.steps[c] < g.n && v.done[c] != [] ==>
      forall s :: s in g.t.starters[g.t.steps[c]] ==> v.Has(s, j)
  }

  /** The dot has been moved over a symbol that derives no token. */
  ghost predicate Skips(g: Parse, v: S.View, j: nat, p: int, e: int)
    requires |v.done| == g.Confs()
  {
    forall nt, h :: g.Before(p, nt) && g.After(e, nt) && j in v.done[e] && h in v.done[p] ==> v.Has(p + 1, h)
  }

  /** The dot has been moved over a symbol that derives the tokens since an earlier state. */
  ghost predicate Completes(g: Parse, prior: seq<S.View>, v: S.View, e: int)
    requires |v.done| == g.Confs()
  {
    forall nt, k, p, h :: g.After(e, nt) && k in v.done[e] && k < |prior| && g.Before(p, nt) && prior[k].Has(p, h) ==>
      v.Has(p + 1, h)
  }

  ghost predicate Handled(g: Parse, prior: seq<S.View>, v: S.View, j: nat)
    requires |v.done| == g.Confs() && |g.t.starters| == g.n
  {
    (forall c :: Predicts(g, v, j, c)) && (forall p, e :: Skips(g, v, j, p, e)) && (forall e :: Completes(g, prior, v, e))
  }

  /** More entries and the same processed ones. */
  ghost predicate Grows(v: S.View, v': S.View) {
    v'.done == v.done && |v'.todo| == |v.todo| && forall c, i {:trigger v.Has(c, i)} {:trigger v'.Has(c, i)} :: v.Has(c, i) ==> v'.Has(c, i)
  }

  /** Entries for a symbol moved over, all at once. */
  lemma MoveAll(g: Parse, nt: nat, p: nat, hs: seq<nat>, k: nat, j: nat)
    requires g.Ok() && g.Before(p, nt) && k <= j && Derivable(g.rules, g.toks, nt, k, j)
    requires forall h :: h in hs ==> g.Says(p, h, k)
    ensures p + 1 < g.Confs() && forall h :: h in hs ==> g.Says(p + 1, h, j)
  {
    Predictors(g.n, g.rules, g.t, nt, p);
    assert p + 1 < g.Confs() by { PredictorNotLast(g, nt, p); }
    forall h | h in hs ensures g.Says(p + 1, h, j) {
      assert g.Says(p, h, k);
      ClaimMove(g.n, g.rules, g.t, g.toks, nt, p, h, k, j);
    }
  }

  lemma PredictorNotLast(g: Parse, nt: nat, p: nat)
    requires g.Ok() && g.Before(p, nt)
    ensures p + 1 < g.Confs()
  {
    assert p >= g.n;
    var r, d := Locate(g.n, g.rules, |g.rules|, p);
    Predictors(g.n, g.rules, g.t, nt, p);
    PredictorIsBefore(g.n, g.rules, g.t, nt, p, r, d);
  }

  lemma DerivedBy(g: Parse, e: nat, nt: nat, k: nat, j: nat)
    requires g.Ok() && g.After(e, nt) && g.Says(e, k, j)
    ensures Derivable(g.rules, g.toks, nt, k, j)
  {
    Enders(g.n, g.rules, g.t, nt, e);
    ClaimEnd(g.n, g.rules, g.t, g.toks, nt, e, k, j);
  }

  // ----- the forward pass

  lemma Sizes(g: Parse)
    requires g.Ok()
    ensures |g.t.starters| == |g.t.enders| == |g.t.predictors| == g.n <= g.Confs()
  {
  }

  /** The state of number `j` with right entries. */
  ghost predicate Good(g: Parse, st: S.State, j: nat)
    reads st
  {
    st.Valid() && st.num == j && |st.sets| == g.Confs() && Truthful(g, st.view, j)
  }

  lemma AddedGood(g: Parse, st: S.State, v: S.View, c: nat, added: seq<nat>, j: nat)
    requires st.Valid() && st.num == j && |st.sets| == g.Confs() && Truthful(g, v, j) && c < g.Confs()
    requires st.view.done == v.done
    requires forall e, k {:trigger st.view.Has(e, k)} :: st.view.Has(e, k) <==> v.Has(e, k) || (e == c && k in added)
    requires forall i :: i in added ==> g.Says(c, i, j)
    ensures Good(g, st, j) && Grows(v, st.view)
  {
  }

  /** Start the rules of a symbol. */
  method Predict(g: Parse, st: S.State, nt: nat, ghost j: nat)
    requires g.Ok() && Good(g, st, j) && nt < g.n
    modifies st`work, st`sets, st`view
    ensures Good(g, st, j) && Grows(old(st.view), st.view)
    ensures forall s :: s in g.t.starters[nt] ==> st.view.Has(s, j)
  {
    hide Layout, Over, S.State.Valid, Truthful;
    Sizes(g);
    var l := g.t.starters[nt];
    var k := 0;
    while k < |l|
      invariant k <= |l| && Good(g, st, j) && Grows(old(st.view), st.view)
      invariant forall x :: 0 <= x < k ==> st.view.Has(l[x], j)
    {
      ghost var v := st.view;
      ClaimStart(g.n, g.rules, g.t, g.toks, nt, l[k], j);
      st.Add(l[k], st.num);
      AddedGood(g, st, v, l[k], [j], j);
      k := k + 1;
    }
  }

  /** Move the dot of `p` over a symbol derived from the tokens `k` to `j`, for all processed positions
      `hs` of the set with vector `v`. */
  method Move(g: Parse, st: S.State, p: nat, v: seq<int>, ghost hs: seq<nat>, ghost nt: nat, ghost k: nat, ghost j: nat)
    requires g.Ok() && Good(g, st, j) && g.Before(p, nt) && k <= j && Derivable(g.rules, g.toks, nt, k, j)
    requires |v| > 5 && S.Linked(v, v[2], hs) && forall h :: h in hs ==> g.Says(p, h, k)
    modifies st`work, st`sets, st`view
    ensures Good(g, st, j) && Grows(old(st.view), st.view) && forall h :: h in hs ==> st.view.Has(p + 1, h)
  {
    hide Layout, Over, S.State.Valid, Truthful, S.Linked, Claim;
    MoveAll(g, nt, p, hs, k, j);
    ghost var w := st.view;
    forall x | 0 <= x < |hs| ensures hs[x] <= j {
      assert hs[x] in hs && g.Says(p + 1, hs[x], j);
    }
    st.Union(p + 1, v, hs);
    AddedGood(g, st, w, p + 1, hs, j);
  }

  /** Facts about the set of `c` in a good state. */
  lemma SetFacts(g: Parse, st: S.State, c: nat, j: nat)
    requires Good(g, st, j) && c < g.Confs()
    ensures |st.view.done| == g.Confs()
    ensures forall h :: h in st.view.done[c] ==> st.view.Has(c, h) && g.Says(c, h, j)
    ensures st.view.done[c] != [] ==> st.sets[c].Vector?
    ensures st.sets[c].Vector? ==> |st.sets[c].v| > 5 && S.Linked(st.sets[c].v, st.sets[c].v[2], st.view.done[c])
  {
    st.Bounded(c);
  }

  method SkipOne(g: Parse, st: S.State, c: nat, nt: nat, e: nat, ghost j: nat)
    requires g.Ok() && Good(g, st, j) && g.Before(c, nt) && g.After(e, nt) && st.sets[c].Vector?
    modifies st`work, st`sets, st`view
    ensures Good(g, st, j) && Grows(old(st.view), st.view)
    ensures forall h :: old(st.view.Has(e, j)) && h in st.view.done[c] ==> st.view.Has(c + 1, h)
  {
    hide Layout, Over, S.State.Valid, Truthful, S.Linked, Claim, Derivable;
    var there := st.Holds(e, st.num);
    if there {
      assert g.Says(e, j, j) by { HasSays(g, st, e, j, j); }
      DerivedBy(g, e, nt, j, j);
      SetFacts(g, st, c, j);
      Move(g, st, c, st.sets[c].v, st.view.done[c], nt, j, j);
    }
  }

  lemma HasSays(g: Parse, st: S.State, c: int, i: int, j: nat)
    requires Good(g, st, j) && st.view.Has(c, i)
    ensures g.Says(c, i, j)
  {
  }

  /** Move the dot of `c` over a symbol that derives no token, if one of its enders is in the state. */
  method Skip(g: Parse, st: S.State, c: nat, nt: nat, ghost j: nat)
    requires g.Ok() && Good(g, st, j) && g.Before(c, nt) && |st.view.done| == g.Confs() && st.view.done[c] != []
    modifies st`work, st`sets, st`view
    ensures Good(g, st, j) && Grows(old(st.view), st.view)
    ensures forall e, h :: g.After(e, nt) && old(st.view.Has(e, j)) && h in st.view.done[c] ==> st.view.Has(c + 1, h)
  {
    hide Layout, Over, S.State.Valid, Truthful, S.Linked, Claim, Good;
    Sizes(g);
    var l := g.t.enders[nt];
    var k := 0;
    while k < |l|
      invariant k <= |l| && Good(g, st, j) && Grows(old(st.view), st.view)
      invariant forall x, h :: 0 <= x < k && old(st.view.Has(l[x], j)) && h in st.view.done[c] ==> st.view.Has(c + 1, h)
    {
      Enders(g.n, g.rules, g.t, nt, l[k]);
      SetFacts(g, st, c, j);
      SkipOne(g, st, c, nt, l[k], j);
      k := k + 1;
    }
    forall e | g.After(e, nt) ensures e in l { Enders(g.n, g.rules, g.t, nt, e); }
  }

  /** The states up to number `j` are good. */
  ghost predicate AllGood(g: Parse, states: seq<S.State>, j: nat)
    reads states
  {
    j < |states| && forall k :: 0 <= k <= j ==> Good(g, states[k], k)
  }

  /** The link after the `k`-th processed position of a set. */
  lemma NextDone(g: Parse, st: S.State, c: nat, k: nat, j: nat)
    requires Good(g, st, j) && c < g.Confs() && |st.view.done| == g.Confs() && k < |st.view.done[c]|
    ensures c < |st.sets| && st.view.Has(c, st.view.done[c][k])
    ensures st.sets[c].Vector? && st.view.done[c][k] + 5 < |st.sets[c].v| && st.view.done[c][k] <= j
    ensures st.sets[c].v[st.view.done[c][k] + 5] == S.Next(st.view.done[c], k)
  {
    st.Bounded(c);
    assert S.Link(st.sets[c].v, st.view.done[c][k]) == S.Next(st.view.done[c], k);
  }

  /** For one configuration `p` before the symbol and one position `i` where the symbol started. */
  method CompleteAt(g: Parse, states: seq<S.State>, st: S.State, c: nat, nt: nat, p: nat, i: nat, ghost j: nat)
    requires g.Ok() && AllGood(g, states, j) && st == states[j] && i <= j
    requires g.After(c, nt) && g.Before(p, nt) && st.view.Has(c, i)
    modifies st`work, st`sets, st`view
    ensures Good(g, st, j) && Grows(old(st.view), st.view)
    ensures forall h :: p < |old(states[i].view.done)| && h in old(states[i].view.done[p]) ==> st.view.Has(p + 1, h)
  {
    hide Layout, Over, S.State.Valid, Truthful, S.Linked, Claim, Derivable, Good;
    assert Good(g, states[i], i);
    SetFacts(g, states[i], p, i);
    HasSays(g, st, c, i, j);
    assert |states[i].sets| == g.Confs() by { GoodSize(g, states[i], i); }
    if states[i].sets[p].Vector? {
      DerivedBy(g, c, nt, i, j);
      Move(g, st, p, states[i].sets[p].v, states[i].view.done[p], nt, i, j);
    }
  }

  lemma GoodSize(g: Parse, st: S.State, j: nat)
    requires Good(g, st, j)
    ensures |st.sets| == g.Confs() == |st.view.done| == |st.view.todo| && st.num == j
  {
  }

  lemma Others(g: Parse, states: seq<S.State>, j: nat)
    requires AllGood(g, states, j)
    ensures forall k :: 0 <= k < j ==> states[k] != states[j]
  {
  }

  /** The processed positions of every set of the states up to `j`. */
  ghost function Done(states: seq<S.State>, j: nat): seq<seq<seq<nat>>>
    requires j < |states|
    reads states
  {
    seq(j + 1, k requires 0 <= k <= j reads states => states[k].view.done)
  }

  /** The dot of `p` has been moved for everything processed at the positions `starts`. */
  ghost predicate Passed(ds: seq<seq<seq<nat>>>, starts: seq<nat>, p: nat, v: S.View) {
    forall i, h :: i in starts && i < |ds| && p < |ds[i]| && h in ds[i][p] ==> v.Has(p + 1, h)
  }

  /** For one configuration `p` before the symbol: all positions of `c` from the `m`-th on. */
  method CompleteOne(g: Parse, states: seq<S.State>, st: S.State, c: nat, nt: nat, p: nat, head: int, ghost m: nat, ghost j: nat)
    requires g.Ok() && AllGood(g, states, j) && st == states[j] && g.After(c, nt) && g.Before(p, nt)
    requires |st.view.done| == g.Confs() && m < |st.view.done[c]| && head == st.view.done[c][m]
    modifies st`work, st`sets, st`view
    ensures AllGood(g, states, j) && Grows(old(st.view), st.view)
    ensures Passed(old(Done(states, j)), old(st.view.done[c])[m..], p, st.view)
  {
    hide Layout, Over, S.State.Valid, Truthful, S.Linked, Claim, Derivable, Good;
    Others(g, states, j);
    ghost var ds, d := Done(states, j), st.view.done[c];
    var i := head;
    ghost var k := m;
    while i >= 0
      invariant m <= k <= |d| && i == (if k < |d| then d[k] else -1)
      invariant AllGood(g, states, j) && Grows(old(st.view), st.view)
      invariant Passed(ds, d[m..k], p, st.view)
      decreases |d| - k
    {
      assert Good(g, st, j);
      NextDone(g, st, c, k, j);
      assert st.view.Has(c, i);
      CompleteAt(g, states, st, c, nt, p, i, j);
      NextDone(g, st, c, k, j);
      i := st.sets[c].v[i + 5];
      assert d[m..k + 1] == d[m..k] + [d[k]];
      k := k + 1;
    }
    assert d[m..k] == d[m..];
  }

  /** Move the dot over a symbol that has been derived, wherever it was waiting for it. */
  method Complete(g: Parse, states: seq<S.State>, st: S.State, c: nat, nt: nat, head: int, ghost m: nat, ghost j: nat)
    requires g.Ok() && AllGood(g, states, j) && st == states[j] && g.After(c, nt)
    requires |st.view.done| == g.Confs() && m < |st.view.done[c]| && head == st.view.done[c][m]
    modifies st`work, st`sets, st`view
    ensures AllGood(g, states, j) && Grows(old(st.view), st.view)
    ensures forall p :: g.Before(p, nt) ==> Passed(old(Done(states, j)), old(st.view.done[c])[m..], p, st.view)
  {
    hide Layout, Over, S.State.Valid, Truthful, S.Linked, Claim, Derivable, Good, Passed;
    Others(g, states, j);
    Sizes(g);
    ghost var ds, d := Done(states, j), st.view.done[c];
    var l := g.t.predictors[nt];
    var x := 0;
    while x < |l|
      invariant x <= |l| && AllGood(g, states, j) && Grows(old(st.view), st.view)
      invariant Done(states, j) == ds
      invariant forall y :: 0 <= y < x ==> Passed(ds, d[m..], l[y], st.view)
    {
      Predictors(g.n, g.rules, g.t, nt, l[x]);
      ghost var v := st.view;
      CompleteOne(g, states, st, c, nt, l[x], head, m, j);
      forall y | 0 <= y < x ensures Passed(ds, d[m..], l[y], st.view) { PassedGrows(ds, d[m..], l[y], v, st.view); }
      x := x + 1;
    }
    forall p | g.Before(p, nt) ensures Passed(ds, d[m..], p, st.view) {
      Predictors(g.n, g.rules, g.t, nt, p);
    }
  }

  lemma PassedGrows(ds: seq<seq<seq<nat>>>, starts: seq<nat>, p: nat, v: S.View, v': S.View)
    requires Passed(ds, starts, p, v) && Grows(v, v')
    ensures Passed(ds, starts, p, v')
  {
  }

  // ----- every iteration leaves the processed entries handled

  ghost predicate Popping(v: S.View, c: nat, confs: nat) {
    |v.done| == |v.todo| == confs && v.queue != [] && c == v.queue[0] && c < confs
  }

  lemma HandledPredict(g: Parse, prior: seq<S.View>, v: S.View, v': S.View, c: nat, nt: nat, j: nat)
    requires |g.t.starters| == g.n && Popping(v, c, g.Confs()) && Handled(g, prior, v, j) && g.Before(c, nt) && Grows(v.Popped(), v')
    requires forall s :: s in g.t.starters[nt] ==> v'.Has(s, j)
    requires forall e, h :: g.After(e, nt) && v.Popped().Has(e, j) && h in v'.done[c] ==> v'.Has(c + 1, h)
    ensures Handled(g, prior, v', j)
  {
    PoppedGrows(v, v', c, g.Confs());
    forall d ensures Predicts(g, v', j, d) { assert Predicts(g, v, j, d); }
    forall p, e ensures Skips(g, v', j, p, e) {
      assert Skips(g, v, j, p, e);
      if p == c {
        forall nt', h | g.Before(p, nt') && g.After(e, nt') && j in v'.done[e] && h in v'.done[p] ensures v'.Has(p + 1, h) {
          assert v.Popped().Has(e, j);
        }
      }
    }
    forall e ensures Completes(g, prior, v', e) { assert Completes(g, prior, v, e); }
  }

  lemma PoppedGrows(v: S.View, v': S.View, c: nat, confs: nat)
    requires Popping(v, c, confs) && Grows(v.Popped(), v')
    ensures forall d, i :: v.Has(d, i) ==> v'.Has(d, i)
    ensures |v'.done| == confs && v'.done[c] == v.done[c] + v.todo[c] && forall d :: 0 <= d < confs && d != c ==> v'.done[d] == v.done[d]
  {
    forall d, i | v.Has(d, i) ensures v'.Has(d, i) { assert v.Popped().Has(d, i); }
  }

  /** The processed positions of the states before `j`, and of the state itself. */
  ghost predicate DoneOf(ds: seq<seq<seq<nat>>>, prior: seq<S.View>, v: S.View, j: nat, confs: nat) {
    |ds| == j + 1 && |prior| == j && ds[j] == v.done && |v.done| == confs &&
    forall k :: 0 <= k < j ==> ds[k] == prior[k].done && |ds[k]| == confs && forall c, i :: prior[k].Has(c, i) ==> i in ds[k][c]
  }

  lemma HandledComplete(g: Parse, prior: seq<S.View>, ds: seq<seq<seq<nat>>>, v: S.View, v': S.View, c: nat, nt: nat, j: nat)
    requires |g.t.starters| == g.n && Popping(v, c, g.Confs()) && Handled(g, prior, v, j) && g.After(c, nt) && Grows(v.Popped(), v')
    requires DoneOf(ds, prior, v.Popped(), j, g.Confs())
    requires forall p :: g.Before(p, nt) ==> Passed(ds, v.todo[c], p, v')
    ensures Handled(g, prior, v', j)
  {
    PoppedGrows(v, v', c, g.Confs());
    forall d ensures Predicts(g, v', j, d) { assert Predicts(g, v, j, d); }
    forall p, e ensures Skips(g, v', j, p, e) {
      assert Skips(g, v, j, p, e);
      if e == c {
        forall nt', h | g.Before(p, nt') && g.After(e, nt') && j in v'.done[e] && h in v'.done[p] ensures v'.Has(p + 1, h) {
          if j in v.todo[c] { assert Passed(ds, v.todo[c], p, v'); }
        }
      }
    }
    forall e ensures Completes(g, prior, v', e) {
      assert Completes(g, prior, v, e);
      if e == c {
        forall nt', k, p, h | g.After(e, nt') && k in v'.done[e] && k < |prior| && g.Before(p, nt') && prior[k].Has(p, h)
          ensures v'.Has(p + 1, h)
        {
          if k in v.todo[c] { assert Passed(ds, v.todo[c], p, v'); }
        }
      }
    }
  }

  // ----- the number of processed positions is bounded

  ghost function Total(done: seq<seq<nat>>): nat {
    if done == [] then 0 else |done[0]| + Total(done[1..])
  }

  ghost function Capacity(confs: nat, b: nat): nat {
    if confs == 0 then 0 else b + Capacity(confs - 1, b)
  }

  lemma {:induction false} TotalBound(done: seq<seq<nat>>, b: nat)
    requires forall c :: 0 <= c < |done| ==> |done[c]| <= b
    ensures Total(done) <= Capacity(|done|, b)
  {
    if done != [] { TotalBound(done[1..], b); }
  }

  lemma {:induction false} TotalUpdate(done: seq<seq<nat>>, c: nat, d: seq<nat>)
    requires c < |done|
    ensures Total(done[c := d]) == Total(done) - |done[c]| + |d|
  {
    if c == 0 {
      assert done[c := d][1..] == done[1..];
    } else {
      assert done[c := d][1..] == done[1..][c - 1 := d];
      TotalUpdate(done[1..], c - 1, d);
    }
  }

  lemma {:induction false} Pigeonhole(s: seq<nat>, b: nat)
    requires Distinct(s) && forall k :: 0 <= k < |s| ==> s[k] < b
    ensures |s| <= b
    decreases b
  {
    if s != [] {
      assert s[0] < b;
      if k :| 0 <= k < |s| && s[k] == b - 1 {
        Pigeonhole(s[..k] + s[k + 1..], b - 1);
      } else {
        Pigeonhole(s, b - 1);
      }
    }
  }

  lemma Room(g: Parse, st: S.State, j: nat)
    requires Good(g, st, j)
    ensures Total(st.view.done) <= Capacity(g.Confs(), j + 1)
  {
    forall c | 0 <= c < |st.view.done| ensures |st.view.done[c]| <= j + 1 {
      st.Bounded(c);
      Pigeonhole(st.view.done[c], j + 1);
    }
    TotalBound(st.view.done, j + 1);
  }

  // ----- the forward pass over one state

  lemma StepRange(g: Parse, c: nat)
    requires g.Ok() && c < g.Confs()
    ensures 0 <= g.t.steps[c] + g.n && g.t.steps[c] < g.n
  {
    if c >= g.n {
      var r, d := Locate(g.n, g.rules, |g.rules|, c);
      DotStep(g.n, g.rules, g.t, r, d);
    }
  }

  /** The views of the states before `j`, all of whose entries have been processed. */
  ghost predicate PriorViews(g: Parse, states: seq<S.State>, prior: seq<S.View>, j: nat)
    reads states
  {
    j < |states| && |prior| == j && forall k :: 0 <= k < j ==> states[k].view == prior[k] && states[k].work < 0
  }

  lemma PoppedGood(g: Parse, st: S.State, v: S.View, j: nat)
    requires st.Valid() && st.num == j && |st.sets| == g.Confs() && Truthful(g, v, j) && v.queue != [] && v.queue[0] < g.Confs()
    requires st.view == v.Popped()
    ensures Good(g, st, j)
  {
    forall c, i | st.view.Has(c, i) ensures g.Says(c, i, j) { assert v.Has(c, i); }
  }

  lemma DonePrior(g: Parse, states: seq<S.State>, prior: seq<S.View>, j: nat)
    requires AllGood(g, states, j) && PriorViews(g, states, prior, j)
    ensures DoneOf(Done(states, j), prior, states[j].view, j, g.Confs())
  {
    forall k | 0 <= k < j
      ensures Done(states, j)[k] == prior[k].done && |prior[k].done| == g.Confs()
      ensures forall c, i :: prior[k].Has(c, i) ==> i in Done(states, j)[k][c]
    {
      assert Good(g, states[k], k);
      states[k].AllDone();
    }
  }

  /** One turn of the loop: take a configuration from the worklist and handle its new positions. */
  method Turn(g: Parse, states: seq<S.State>, j: nat, ghost prior: seq<S.View>)
    requires g.Ok() && AllGood(g, states, j) && PriorViews(g, states, prior, j) && states[j].work >= 0
    requires |states[j].view.done| == g.Confs() && |g.t.starters| == g.n && Handled(g, prior, states[j].view, j)
    modifies states[j]
    ensures AllGood(g, states, j) && PriorViews(g, states, prior, j)
    ensures |states[j].view.done| == g.Confs() && Handled(g, prior, states[j].view, j)
    ensures Total(states[j].view.done) > old(Total(states[j].view.done))
    ensures forall c, i :: old(states[j].view.Has(c, i)) ==> states[j].view.Has(c, i)
  {
    hide Layout, Over, Truthful, S.Linked, Claim, Derivable, Passed, Handled, S.State.Valid, DoneOf;
    Others(g, states, j);
    var st := states[j];
    ghost var v := st.view;
    assert |v.todo| == g.Confs() by { GoodSize(g, st, j); }
    var c, head := st.Pop();
    PoppedGood(g, st, v, j);
    TotalUpdate(v.done, c, v.done[c] + v.todo[c]);
    StepRange(g, c);
    var step := g.t.steps[c];
    if step >= 0 {
      Predict(g, st, step, j);
      Skip(g, st, c, step, j);
      HandledPredict(g, prior, v, st.view, c, step, j);
    } else {
      ghost var ds := Done(states, j);
      DonePrior(g, states, prior, j);
      Complete(g, states, st, c, step + g.n, head, |v.done[c]|, j);
      HandledComplete(g, prior, ds, v, st.view, c, step + g.n, j);
    }
    PoppedGrows(v, st.view, c, g.Confs());
  }

  /** `forw`: after it every entry of the state has been processed and handled. */
  method Forw(g: Parse, states: seq<S.State>, j: nat, ghost prior: seq<S.View>)
    requires g.Ok() && AllGood(g, states, j) && PriorViews(g, states, prior, j)
    requires |states[j].view.done| == g.Confs() && forall c :: 0 <= c < g.Confs() ==> states[j].view.done[c] == []
    modifies states[j]
    ensures AllGood(g, states, j) && PriorViews(g, states, prior, j) && states[j].work < 0
    ensures |states[j].view.done| == g.Confs() && |g.t.starters| == g.n && Handled(g, prior, states[j].view, j)
    ensures forall c, i :: old(states[j].view.Has(c, i)) ==> states[j].view.Has(c, i)
  {
    Sizes(g);
    assert Handled(g, prior, states[j].view, j);
    hide Layout, Over, Good, Handled;
    while states[j].work >= 0
      invariant AllGood(g, states, j) && PriorViews(g, states, prior, j)
      invariant |states[j].view.done| == g.Confs() && Handled(g, prior, states[j].view, j)
      invariant forall c, i :: old(states[j].view.Has(c, i)) ==> states[j].view.Has(c, i)
      decreases Capacity(g.Confs(), j + 1) - Total(states[j].view.done)
    {
      Room(g, states[j], j);
      Turn(g, states, j, prior);
      Room(g, states[j], j);
    }
  }

  // ----- the forward pass over the whole input

  ghost function ChartOf(views: seq<S.View>): Chart {
    (j, c, i) => 0 <= j < |views| && views[j].Has(c, i)
  }

  /** A state all of whose entries are right, processed and handled. */
  ghost predicate Finished(g: Parse, views: seq<S.View>, j: nat)
    requires j < |views| && |g.t.starters| == g.n
  {
    Truthful(g, views[j], j) && Handled(g, views[..j], views[j], j) && forall c, i :: views[j].Has(c, i) ==> i in views[j].done[c]
  }

  /** The goal's rules are started at the beginning. */
  ghost predicate GoalStarted(g: Parse, views: seq<S.View>)
    requires |g.t.starters| == g.n && views != []
  {
    0 < g.n ==> forall s :: s in g.t.starters[0] ==> views[0].Has(s, 0)
  }

  /** The first `m` tokens are in the states after them. */
  ghost predicate TokensRead(g: Parse, views: seq<S.View>, m: nat)
    requires m < |views| && m <= |g.toks|
  {
    forall i, nt :: 0 <= i < m && nt in g.toks[i] ==> views[i + 1].Has(nt, i)
  }

  /** When every state is finished, the chart is closed. */
  lemma FinishedClosed(g: Parse, views: seq<S.View>)
    requires g.Ok() && |g.t.starters| == |g.t.predictors| == g.n && |views| == |g.toks| + 1
    requires GoalStarted(g, views) && TokensRead(g, views, |g.toks|)
    requires forall j :: 0 <= j < |views| ==> Finished(g, views, j)
    ensures Closed(g.n, g.t, g.toks, ChartOf(views))
  {
    var ch := ChartOf(views);
    forall j, c, i, s | In(ch, j, c, i) && c < g.Confs() && 0 <= g.t.steps[c] < g.n && s in g.t.starters[g.t.steps[c]]
      ensures In(ch, j, s, j)
    {
      assert Finished(g, views, j) && Predicts(g, views[j], j, c);
    }
    forall j, e, k: nat, p, i | In(ch, j, e, k) && In(ch, k, p, i) && e < g.Confs() && 0 <= g.t.steps[e] + g.n < g.n &&
                                0 <= p && p in g.t.predictors[g.t.steps[e] + g.n]
      ensures In(ch, j, p + 1, i)
    {
      MovedOver(g, views, j, e, k, p, i);
    }
  }

  lemma MovedOver(g: Parse, views: seq<S.View>, j: nat, e: nat, k: nat, p: nat, i: nat)
    requires g.Ok() && |g.t.starters| == |g.t.predictors| == g.n && j < |views| && k < |views|
    requires Finished(g, views, j) && Finished(g, views, k)
    requires views[j].Has(e, k) && views[k].Has(p, i) && e < g.Confs() && 0 <= g.t.steps[e] + g.n < g.n
    requires p in g.t.predictors[g.t.steps[e] + g.n]
    ensures views[j].Has(p + 1, i)
  {
    var nt := g.t.steps[e] + g.n;
    Predictors(g.n, g.rules, g.t, nt, p);
    hide Layout, Over;
    assert g.Says(e, k, j) && g.After(e, nt) && g.Before(p, nt);
    if k < j {
      assert views[..j][k] == views[k];
      assert Completes(g, views[..j], views[j], e);
    } else {
      assert Skips(g, views[j], j, p, e);
    }
  }

  lemma FinishedPrefix(g: Parse, views: seq<S.View>, w: S.View, j: nat)
    requires |g.t.starters| == g.n && j < |views| && Finished(g, views, j)
    ensures Finished(g, views + [w], j)
  {
    assert (views + [w])[..j] == views[..j];
  }

  ghost predicate Blank(g: Parse, st: S.State, j: nat)
    reads st
  {
    st.Valid() && st.num == j && st.work < 0 && st.view == S.View(seq(g.Confs(), _ => []), seq(g.Confs(), _ => []), []) && st.NoneEmpty()
  }

  /** `make-states`. */
  method MakeStates(g: Parse, nbToks: nat) returns (states: seq<S.State>)
    ensures |states| == nbToks + 1 && fresh(states) && forall k :: 0 <= k <= nbToks ==> Blank(g, states[k], k)
  {
    states := [];
    while |states| <= nbToks
      invariant |states| <= nbToks + 1 && fresh(states) && forall k :: 0 <= k < |states| ==> Blank(g, states[k], k)
      decreases nbToks + 1 - |states|
    {
      var st := new S.State(|states|, g.Confs());
      states := states + [st];
    }
  }

  /** `conf-set-adjoin*`: put the position `i` into the sets of the configurations `l`. */
  method AdjoinAll(g: Parse, st: S.State, l: seq<nat>, i: nat, ghost j: nat)
    requires Good(g, st, j) && i <= j && forall x :: 0 <= x < |l| ==> g.Says(l[x], i, j)
    modifies st`work, st`sets, st`view
    ensures Good(g, st, j) && Grows(old(st.view), st.view) && forall x :: 0 <= x < |l| ==> st.view.Has(l[x], i)
  {
    hide S.State.Valid, Truthful, Claim;
    var k := 0;
    while k < |l|
      invariant k <= |l| && Good(g, st, j) && Grows(old(st.view), st.view)
      invariant forall x :: 0 <= x < k ==> st.view.Has(l[x], i)
    {
      ghost var v := st.view;
      assert g.Says(l[k], i, j);
      st.Add(l[k], i);
      AddedGood(g, st, v, l[k], [i], j);
      k := k + 1;
    }
  }

  /** Read the symbols `l`, which start at `i`, into the blank state `j` and process it. */
  method Process(g: Parse, states: seq<S.State>, l: seq<nat>, i: nat, j: nat, ghost prior: seq<S.View>) returns (ghost w: S.View)
    requires g.Ok() && |g.t.starters| == g.n && |states| > j && Blank(g, states[j], j)
    requires (forall k :: 0 <= k < j ==> Good(g, states[k], k)) && PriorViews(g, states, prior, j)
    requires i <= j && forall x :: 0 <= x < |l| ==> g.Says(l[x], i, j)
    modifies states[j]
    ensures AllGood(g, states, j) && PriorViews(g, states, prior, j) && states[j].work < 0 && w == states[j].view
    ensures Finished(g, prior + [w], j) && forall x :: 0 <= x < |l| ==> w.Has(l[x], i)
  {
    hide Layout, Over, Good, Truthful, Handled, S.State.Valid, Finished, Claim, Blank;
    var st := states[j];
    BlankApart(g, states, j);
    BlankGood(g, st, j);
    GoodSize(g, st, j);
    AdjoinAll(g, st, l, i, j);
    GoodSize(g, st, j);
    Forw(g, states, j, prior);
    w := st.view;
    ProcessedFinished(g, st, prior, j);
  }

  lemma BlankApart(g: Parse, states: seq<S.State>, j: nat)
    requires j < |states| && Blank(g, states[j], j) && forall k :: 0 <= k < j ==> Good(g, states[k], k)
    ensures forall k :: 0 <= k < j ==> states[k] != states[j]
  {
  }

  lemma BlankGood(g: Parse, st: S.State, j: nat)
    requires Blank(g, st, j)
    ensures Good(g, st, j) && forall c :: 0 <= c < g.Confs() ==> st.view.done[c] == []
  {
  }

  lemma ProcessedFinished(g: Parse, st: S.State, prior: seq<S.View>, j: nat)
    requires |g.t.starters| == g.n && Good(g, st, j) && |prior| == j && st.work < 0
    requires |st.view.done| == g.Confs() && Handled(g, prior, st.view, j)
    ensures Finished(g, prior + [st.view], j)
  {
    st.AllDone();
    assert (prior + [st.view])[..j] == prior;
  }

  /** The states after the forward pass and their views: every entry is right, and there is an entry
      for every derivation that can be part of a parse. */
  ghost predicate Parsed(g: Parse, states: seq<S.State>, views: seq<S.View>)
    reads states
  {
    |states| == |views| == |g.toks| + 1 && |g.t.starters| == |g.t.predictors| == |g.t.enders| == g.n &&
    (forall k :: 0 <= k < |states| ==> Good(g, states[k], k) && states[k].work < 0 && states[k].view == views[k]) &&
    Closed(g.n, g.t, g.toks, ChartOf(views))
  }

  /** The states up to `i` are finished, the others still blank. */
  ghost predicate ReadTo(g: Parse, states: seq<S.State>, views: seq<S.View>, i: nat)
    requires |g.t.starters| == g.n
    reads states
  {
    i <= |g.toks| && |states| == |g.toks| + 1 && |views| == i + 1 &&
    (forall k :: 0 <= k <= i ==> Good(g, states[k], k) && states[k].work < 0 && states[k].view == views[k] && Finished(g, views, k)) &&
    (forall k :: i < k <= |g.toks| ==> Blank(g, states[k], k)) &&
    GoalStarted(g, views) && TokensRead(g, views, i)
  }

  /** The first state, where the goal's rules start. */
  method ReadGoal(g: Parse) returns (states: seq<S.State>, ghost views: seq<S.View>)
    requires g.Ok() && |g.t.starters| == g.n
    ensures fresh(states) && ReadTo(g, states, views, 0)
  {
    hide Layout, Over, Good, Truthful, Handled, S.State.Valid, Finished, Claim, Blank;
    states := MakeStates(g, |g.toks|);
    var goal := if g.n == 0 then [] else g.t.starters[0];
    GoalSays(g);
    BlankDistinct(g, states);
    ghost var w := Process(g, states, goal, 0, 0, []);
    views := [w];
    assert [] + [w] == views;
  }

  /** One token. */
  method ReadToken(g: Parse, states: seq<S.State>, ghost views: seq<S.View>, i: nat) returns (ghost views': seq<S.View>)
    requires g.Ok() && |g.t.starters| == g.n && i < |g.toks| && ReadTo(g, states, views, i)
    modifies states[i + 1]
    ensures ReadTo(g, states, views', i + 1)
  {
    TokenSays(g, i);
    Separate(g, states, i, |g.toks|);
    hide Layout, Over, Good, Truthful, Handled, S.State.Valid, Finished, Claim, Blank, TokensRead;
    ghost var w := Process(g, states, g.toks[i], i, i + 1, views);
    forall k | 0 <= k <= i ensures Finished(g, views + [w], k) { FinishedPrefix(g, views, w, k); }
    TokensSnoc(g, views, w, i);
    views' := views + [w];
  }

  /** The forward pass. */
  method Forward(g: Parse) returns (states: seq<S.State>, ghost views: seq<S.View>)
    requires g.Ok()
    ensures fresh(states) && Parsed(g, states, views)
  {
    Sizes(g);
    states, views := ReadGoal(g);
    hide Layout, Over, ReadTo;
    var i := 0;
    while i < |g.toks|
      invariant i <= |g.toks| && fresh(states) && ReadTo(g, states, views, i)
    {
      assert |states| == |g.toks| + 1 by { ReadSizes(g, states, views, i); }
      views := ReadToken(g, states, views, i);
      i := i + 1;
    }
    ReadAll(g, states, views);
  }

  lemma ReadSizes(g: Parse, states: seq<S.State>, views: seq<S.View>, i: nat)
    requires |g.t.starters| == g.n && ReadTo(g, states, views, i)
    ensures |states| == |g.toks| + 1
  {
  }

  lemma ReadAll(g: Parse, states: seq<S.State>, views: seq<S.View>)
    requires g.Ok() && |g.t.starters| == g.n && ReadTo(g, states, views, |g.toks|)
    ensures Parsed(g, states, views)
  {
    Sizes(g);
    hide Layout, Over, Good, Finished;
    FinishedClosed(g, views);
  }

  lemma GoalSays(g: Parse)
    requires g.Ok() && |g.t.starters| == g.n
    ensures 0 < g.n ==> forall x :: 0 <= x < |g.t.starters[0]| ==> g.Says(g.t.starters[0][x], 0, 0)
  {
    if 0 < g.n {
      forall x | 0 <= x < |g.t.starters[0]| ensures g.Says(g.t.starters[0][x], 0, 0) {
        ClaimStart(g.n, g.rules, g.t, g.toks, 0, g.t.starters[0][x], 0);
      }
    }
  }

  lemma BlankDistinct(g: Parse, states: seq<S.State>)
    requires |states| > 0 && forall k :: 0 <= k < |states| ==> Blank(g, states[k], k)
    ensures forall k :: 0 < k < |states| ==> states[k] != states[0]
  {
  }

  lemma TokenSays(g: Parse, i: nat)
    requires g.Ok() && i < |g.toks|
    ensures forall x :: 0 <= x < |g.toks[i]| ==> g.Says(g.toks[i][x], i, i + 1)
  {
    Sizes(g);
    forall x | 0 <= x < |g.toks[i]| ensures g.Says(g.toks[i][x], i, i + 1) {
      assert g.toks[i][x] in g.toks[i];
    }
  }

  lemma TokensSnoc(g: Parse, views: seq<S.View>, w: S.View, i: nat)
    requires i < |g.toks| && |views| == i + 1 && TokensRead(g, views, i)
    requires forall x :: 0 <= x < |g.toks[i]| ==> w.Has(g.toks[i][x], i)
    ensures TokensRead(g, views + [w], i + 1)
  {
  }

  lemma Separate(g: Parse, states: seq<S.State>, i: nat, nbToks: nat)
    requires |states| == nbToks + 1 && i < nbToks
    requires forall k :: 0 <= k <= i ==> Good(g, states[k], k)
    requires forall k :: i < k <= nbToks ==> Blank(g, states[k], k)
    ensures forall k :: 0 <= k <= nbToks && k != i + 1 ==> states[k] != states[i + 1]
  {
  }
}
