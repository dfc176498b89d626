/** Counting the derivation trees without building them. */
module EarleyCount {
  import opened Common
  import opened EarleyGrammar
  import opened EarleyChart
  import opened EarleyParser
  import opened EarleyUse
  import opened EarleyPrune
  import opened EarleySource
  import opened EarleyTrees
  import opened EarleyExact
  import opened EarleyFuel
  import opened EarleyForest
  import S = EarleySets

  /** `nb-deriv-trees`. */
  method NbDerivTrees(g: Parse, star: seq<S.State>, c: nat, i: nat, j: nat, fuel: nat) returns (r: Option<nat>)
    requires Readable(g, star) && c < g.Confs() && j < |star|
    ensures r == CountOf(g, Views(star), c, i, j, fuel)
    decreases fuel, 0, 0
  {
    NamedStarts(g, c);
    if fuel == 0 {
      return None;
    } else if c < g.n || g.t.steps[c - 1] < 0 {
      return Some(1);
    }
    ghost var l := EndersIn(g, c);
    r := CountOverEnders(g, star, c, i, j, g.t.enders[g.t.steps[c - 1]], fuel - 1);
  }

  method CountOverEnders(g: Parse, star: seq<S.State>, c: nat, i: nat, j: nat, l0: seq<nat>, fuel: nat) returns (r: Option<nat>)
    requires Readable(g, star) && 0 < c < g.Confs() && j < |star| && forall x :: 0 <= x < |l0| ==> l0[x] < g.Confs()
    ensures r == CountEnders(g, Views(star), c, i, j, l0, 0, fuel)
    decreases fuel, 2, 0
  {
    hide Readable;
    var l: seq<nat>, m: nat := l0, 0;
    while l != []
      invariant (forall x :: 0 <= x < |l| ==> l[x] < g.Confs())
      invariant CountEnders(g, Views(star), c, i, j, l, m, fuel) == CountEnders(g, Views(star), c, i, j, l0, 0, fuel)
      decreases |l|
    {
      ReadSet(g, star, j, l[0]);
      var o := CountOverStarts(g, star, c, i, j, l[0], m, fuel);
      if o.None? {
        return None;
      }
      l, m := l[1..], o.value;
    }
    return Some(m);
  }

  method CountOverStarts(g: Parse, star: seq<S.State>, c: nat, i: nat, j: nat, e: nat, m: nat, fuel: nat) returns (r: Option<nat>)
    requires Readable(g, star) && 0 < c < g.Confs() && j < |star| && e < g.Confs() && |star[j].view.done| == g.Confs()
    ensures r == CountStarts(g, Views(star), c, i, j, e, star[j].view.done[e], m, fuel)
    decreases fuel, 1, 0
  {
    hide Readable, S.Linked;
    ReadSet(g, star, j, e);
    match star[j].sets[e] {
      case Absent => return Some(m);
      case Vector(v) =>
        r := CountAlong(g, star, c, i, j, e, v, m, fuel);
    }
  }

  /** The number with the last symbol starting at `k` added to `m`. */
  ghost function CountAt(g: Parse, vs: seq<S.View>, c: nat, i: nat, j: nat, e: nat, k: nat, m: nat, fuel: nat): Option<nat>
    requires c > 0
  {
    if k >= i && k < |vs| && vs[k].Has(c - 1, i) then
      match CountOf(g, vs, c - 1, i, k, fuel)
      case None => None
      case Some(a) => (match CountOf(g, vs, e, k, j, fuel) case None => None case Some(b) => Some(m + a * b))
    else Some(m)
  }

  lemma CountOne(g: Parse, vs: seq<S.View>, c: nat, i: nat, j: nat, e: nat, ks: seq<nat>, x: nat, m: nat, fuel: nat)
    requires c > 0 && x < |ks|
    ensures CountStarts(g, vs, c, i, j, e, ks[x..], m, fuel) ==
      match CountAt(g, vs, c, i, j, e, ks[x], m, fuel) case None => None case Some(m') => CountStarts(g, vs, c, i, j, e, ks[x + 1..], m', fuel)
  {
    assert ks[x..][0] == ks[x] && ks[x..][1..] == ks[x + 1..];
  }

  method CountAtStart(g: Parse, star: seq<S.State>, c: nat, i: nat, j: nat, e: nat, k: nat, m: nat, fuel: nat) returns (r: Option<nat>)
    requires Readable(g, star) && 0 < c < g.Confs() && j < |star| && e < g.Confs() && k < |star|
    ensures r == CountAt(g, Views(star), c, i, j, e, k, m, fuel)
    decreases fuel, 0, 1
  {
    hide Readable, CountOf, S.State.Valid, S.Linked;
    ReadSet(g, star, k, c - 1);
    assert Views(star)[k] == star[k].view;
    if k < i {
      return Some(m);
    }
    var there := star[k].Holds(c - 1, i);
    if !there {
      return Some(m);
    }
    var a := NbDerivTrees(g, star, c - 1, i, k, fuel);
    if a.None? {
      return None;
    }
    var b := NbDerivTrees(g, star, e, k, j, fuel);
    if b.None? {
      return None;
    }
    return Some(m + a.value * b.value);
  }

  method CountAlong(g: Parse, star: seq<S.State>, c: nat, i: nat, j: nat, e: nat, v: seq<int>, m0: nat, fuel: nat) returns (r: Option<nat>)
    requires Readable(g, star) && 0 < c < g.Confs() && j < |star| && e < g.Confs() && |star[j].view.done| == g.Confs()
    requires |v| == j + 6 && S.Linked(v, v[2], star[j].view.done[e]) && forall x :: 0 <= x < |star[j].view.done[e]| ==> star[j].view.done[e][x] <= j
    ensures r == CountStarts(g, Views(star), c, i, j, e, star[j].view.done[e], m0, fuel)
    decreases fuel, 0, 2
  {
    hide Readable, CountAt, CountOf, CountStarts;
    ghost var vs, d, x := Views(star), star[j].view.done[e], 0;
    var k, m: nat := v[2], m0;
    assert d[0..] == d;
    while k >= 0
      invariant 0 <= x <= |d| && k == (if x < |d| then d[x] else -1)
      invariant CountStarts(g, vs, c, i, j, e, d[x..], m, fuel) == CountStarts(g, vs, c, i, j, e, d, m0, fuel)
      decreases |d| - x
    {
      CountOne(g, vs, c, i, j, e, d, x, m, fuel);
      var o := CountAtStart(g, star, c, i, j, e, k, m, fuel);
      if o.None? {
        return None;
      }
      m := o.value;
      assert S.Link(v, d[x]) == S.Next(d, x);
      k := v[k + 5];
      x := x + 1;
    }
    assert d[x..] == [];
    CountDone(g, vs, c, i, j, e, m, fuel);
    return Some(m);
  }

  lemma CountDone(g: Parse, vs: seq<S.View>, c: nat, i: nat, j: nat, e: nat, m: nat, fuel: nat)
    requires c > 0
    ensures CountStarts(g, vs, c, i, j, e, [], m, fuel) == Some(m)
  {
  }

  /** The number for one ender of the goal added to `m`. */
  ghost function EnderCount(g: Parse, vs: seq<S.View>, e: nat, j: nat, m: nat, fuel: nat): Option<nat> {
    if j < |vs| && vs[j].Has(e, 0) then match CountOf(g, vs, e, 0, j, fuel) case None => None case Some(k) => Some(k + m)
    else Some(m)
  }

  lemma CountOverCons(g: Parse, vs: seq<S.View>, l: seq<nat>, j: nat, m: nat, fuel: nat)
    ensures CountOver(g, vs, [], 0, j, m, fuel) == Some(m)
    ensures l != [] ==>
      CountOver(g, vs, l, 0, j, m, fuel) ==
      match EnderCount(g, vs, l[0], j, m, fuel) case None => None case Some(m') => CountOver(g, vs, l[1..], 0, j, m', fuel)
  {
    hide CountOf;
  }

  method CountEnder(g: Parse, star: seq<S.State>, e: nat, j: nat, m: nat, fuel: nat) returns (r: Option<nat>)
    requires Readable(g, star) && e < g.Confs() && j < |star|
    ensures r == EnderCount(g, Views(star), e, j, m, fuel)
  {
    hide Readable, CountOf, S.State.Valid, S.Linked;
    ReadSet(g, star, j, e);
    var there := star[j].Holds(e, 0);
    assert Views(star)[j] == star[j].view;
    if !there {
      return Some(m);
    }
    r := NbDerivTrees(g, star, e, 0, j, fuel);
    if r.Some? {
      r := Some(r.value + m);
    }
  }

  /** `parse->nb-trees` for the goal over the whole input. */
  method CountGoalTrees(g: Parse, star: seq<S.State>, fuel: nat) returns (r: Option<nat>)
    requires Readable(g, star) && |star| == |g.toks| + 1 && 0 < g.n && |g.t.enders| == g.n
    ensures r == CountOver(g, Views(star), g.t.enders[0], 0, |g.toks|, 0, fuel)
  {
    GoalEnders(g, star);
    hide *;
    var j := |g.toks|;
    var l: seq<nat>, m: nat := g.t.enders[0], 0;
    while l != []
      invariant forall x :: 0 <= x < |l| ==> l[x] < g.Confs()
      invariant CountOver(g, Views(star), l, 0, j, m, fuel) == CountOver(g, Views(star), g.t.enders[0], 0, j, 0, fuel)
      decreases |l|
    {
      CountOverCons(g, Views(star), l, j, m, fuel);
      var k := CountEnder(g, star, l[0], j, m, fuel);
      if k.None? {
        return None;
      }
      l, m := l[1..], k.value;
    }
    CountOverCons(g, Views(star), l, j, m, fuel);
    return Some(m);
  }

  lemma CountNone(g: Parse, vs: seq<S.View>, fuel: nat)
    requires g.Ok() && 0 < g.n
    ensures |g.t.enders| == g.n && CountOver(g, vs, g.t.enders[0], 0, |g.toks|, 0, fuel) == Length(TreesOver(g, vs, g.t.enders[0], 0, |g.toks|, [], fuel))
  {
    Sizes(g);
    var l := g.t.enders[0];
    forall x | 0 <= x < |l| ensures l[x] < g.Confs() { Enders(g.n, g.rules, g.t, 0, l[x]); }
    CountOverIsLength(g, vs, l, 0, |g.toks|, [], fuel);
  }

  /** The goal has exactly `n` derivation trees. */
  ghost predicate HasTrees(g: Parse, n: nat) {
    exists ts :: |ts| == n && Distinct(ts) && AllOf(g, ts)
  }

  ghost predicate AllOf(g: Parse, ts: seq<Tree>) {
    forall t :: t in ts <==> Parses(g, t)
  }

  ghost predicate Deeper(g: Parse, fuel: nat) {
    exists t :: Parses(g, t) && Depth(t) > fuel
  }

  lemma CountExact(g: Parse, views: seq<S.View>, vs: seq<S.View>, fuel: nat)
    requires Ready(g, views, vs) && 0 < g.n && GoalKept(g, views, vs, |g.toks|)
    ensures |g.t.enders| == g.n
    ensures match CountOver(g, vs, g.t.enders[0], 0, |g.toks|, 0, fuel) case Some(n) => HasTrees(g, n) case None => Deeper(g, fuel)
  {
    ReadyOk(g, views, vs);
    CountNone(g, vs, fuel);
    hide Layout, Over, Ready, GoalKept, TreesOver, CountOver, Derives;
    if TreesOver(g, vs, g.t.enders[0], 0, |g.toks|, [], fuel).Some? {
      GoalTrees(g, views, vs, fuel);
      assert AllOf(g, TreesOver(g, vs, g.t.enders[0], 0, |g.toks|, [], fuel).value);
    } else if !Deeper(g, fuel) {
      GoalEnough(g, views, vs, fuel);
    }
  }

  /** An input has exactly `n` derivations. */
  ghost predicate ParseCount(defs: seq<Def>, input: seq<seq<string>>, n: nat) {
    exists ts: seq<Derivation> :: |ts| == n && Distinct(ts) && forall t :: t in ts <==> IsParse(defs, input, t)
  }

  lemma CountedParses(defs: seq<Def>, input: seq<seq<string>>, nts: seq<string>, g: Parse, n: nat)
    requires Numbering(defs, input, nts, g.rules, g.toks) && HasTrees(g, n)
    ensures ParseCount(defs, input, n)
  {
    hide Numbering, Parses, IsParse;
    var ts :| |ts| == n && Distinct(ts) && AllOf(g, ts);
    AllParses(defs, input, nts, g, ts);
    assert |SpelledTrees(defs, nts, ts)| == n;
  }

  lemma CountedDeep(defs: seq<Def>, input: seq<seq<string>>, nts: seq<string>, g: Parse, fuel: nat)
    requires Numbering(defs, input, nts, g.rules, g.toks) && Deeper(g, fuel)
    ensures TooDeep(defs, input, fuel)
  {
    hide Numbering, Parses, Depth, TooDeep;
    var t :| Parses(g, t) && Depth(t) > fuel;
    DeepParse(defs, input, nts, g, t, fuel);
  }

  /** The number of derivations of an input, or no answer, and then there is one deeper than the fuel. */
  method NumberOfTrees(defs: seq<Def>, input: seq<seq<string>>, fuel: nat) returns (r: Option<nat>)
    requires defs != []
    ensures r.Some? ==> ParseCount(defs, input, r.value)
    ensures r.None? ==> TooDeep(defs, input, fuel)
  {
    var nts, p := MakeParser(defs, input);
    hide ParseCount, TooDeep, Parses, Layout, Over, Both, Parsed, GoalKept, Numbering, Readable, Ready, TreesOver, CountOver, Derives, HasTrees, Deeper;
    Numbers(defs, input, nts, p);
    var states, views := Forward(p);
    var star := Backward(p, states, views);
    BothSizes(p, states, views, star);
    KeptReady(p, states, views, star);
    CountExact(p, views, Views(star), fuel);
    r := CountGoalTrees(p, star, fuel);
    if r.Some? {
      CountedParses(defs, input, nts, p, r.value);
    } else {
      CountedDeep(defs, input, nts, p, fuel);
    }
  }
}
