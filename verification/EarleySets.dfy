/** The sets of starting positions that the Earley benchmark keeps for each configuration: two linked
    lists threaded through one vector, and a worklist of configurations threaded through the sets. */
module EarleySets {
  import opened Common

  /** The value `false` in a vector. */
  const FALSE := -2

  function Head(s: seq<nat>): int {
    if s == [] then -1 else s[0]
  }

  function Next(s: seq<nat>, k: nat): int {
    if k + 1 < |s| then s[k + 1] else -1
  }

  /** The last element; an empty list has its head in the entry `default + 5`. */
  function Tail(s: seq<nat>, default: int): int {
    if s == [] then default else s[|s| - 1]
  }

  /** The entry of position `i`: `false`, or the position after `i` in its list, or -1. */
  function Link(v: seq<int>, i: nat): int {
    if i + 5 < |v| then v[i + 5] else FALSE
  }

  /** The links lead through the list `s`, which starts with `h`. */
  predicate Linked(v: seq<int>, h: int, s: seq<nat>) {
    h == Head(s) && forall k :: 0 <= k < |s| ==> s[k] + 5 < |v| && Link(v, s[k]) == Next(s, k)
  }

  predicate Apart(s: seq<nat>, t: seq<nat>) {
    Distinct(s) && Distinct(t) && forall k, l :: 0 <= k < |s| && 0 <= l < |t| ==> s[k] != t[l]
  }

  /** An entry is `false` exactly when its position is in neither list. */
  predicate Marked(v: seq<int>, done: seq<nat>, todo: seq<nat>) {
    forall i: nat :: i + 5 < |v| ==> (Link(v, i) == FALSE <==> i !in done && i !in todo)
  }

  /** The vector of state `n` holds the processed positions `done` and the new ones `todo`. */
  predicate Represents(v: seq<int>, done: seq<nat>, todo: seq<nat>, n: nat) {
    |v| == n + 6 && v[1] == Tail(done, -3) && v[3] == Tail(todo, -1) &&
    Linked(v, v[2], done) && Linked(v, v[4], todo) && Apart(done, todo) && Marked(v, done, todo)
  }

  function NewVector(n: nat): seq<int> {
    seq(n + 6, k => if k == 1 then -3 else if 2 <= k <= 4 then -1 else FALSE)
  }

  lemma NewRepresents(n: nat)
    ensures Represents(NewVector(n), [], [], n)
  {
  }

  // ----- adding a position

  /** `conf-set-adjoin`, without the worklist. */
  function AdjoinVector(v: seq<int>, i: nat): seq<int>
    requires i + 5 < |v| && -1 <= v[3] < |v| - 5
  {
    v[i + 5 := -1][v[3] + 5 := i][3 := i]
  }

  lemma AdjoinEntries(v: seq<int>, i: nat)
    requires i + 5 < |v| && -1 <= v[3] < |v| - 5 && v[3] != i
    ensures var v' := AdjoinVector(v, i);
            |v'| == |v| && v'[..3] == v[..3] && v'[3] == i && v'[4] == (if v[3] == -1 then i else v[4]) &&
            forall x: nat :: x + 5 < |v| ==> Link(v', x) == if x == v[3] then i else if x == i then -1 else Link(v, x)
  {
  }

  lemma LinkedElsewhere(v: seq<int>, v': seq<int>, h: int, s: seq<nat>)
    requires Linked(v, h, s) && |v'| == |v| && forall k :: 0 <= k < |s| ==> Link(v', s[k]) == Link(v, s[k])
    ensures Linked(v', h, s)
  {
  }

  lemma LinkedSnoc(v: seq<int>, v': seq<int>, h: int, s: seq<nat>, i: nat)
    requires Linked(v, h, s) && i !in s && Distinct(s) && i + 5 < |v'| == |v|
    requires Link(v', i) == -1 && (s != [] ==> Link(v', s[|s| - 1]) == i)
    requires forall k :: 0 <= k < |s| - 1 ==> Link(v', s[k]) == Link(v, s[k])
    ensures Linked(v', if s == [] then i else h, s + [i])
  {
    forall k | 0 <= k < |s + [i]| ensures (s + [i])[k] + 5 < |v'| && Link(v', (s + [i])[k]) == Next(s + [i], k) {
      if k < |s| - 1 { assert Link(v, s[k]) == Next(s, k); }
    }
  }

  lemma ApartSnoc(s: seq<nat>, t: seq<nat>, i: nat)
    requires Apart(s, t) && i !in s && i !in t
    ensures Apart(s, t + [i])
  {
  }

  lemma AdjoinMarked(v: seq<int>, v': seq<int>, done: seq<nat>, todo: seq<nat>, i: nat)
    requires |v| == |v'| && i + 5 < |v| && Marked(v, done, todo)
    requires forall x: nat :: x + 5 < |v| ==>
      Link(v', x) == if x == Tail(todo, -1) then i else if x == i then -1 else Link(v, x)
    ensures Marked(v', done, todo + [i])
  {
    forall x: nat | x + 5 < |v| ensures Link(v', x) == FALSE <==> x !in done && x !in todo + [i] {
      assert x in todo + [i] <==> x in todo || x == i;
    }
  }

  lemma AdjoinRepresents(v: seq<int>, done: seq<nat>, todo: seq<nat>, n: nat, i: nat)
    requires Represents(v, done, todo, n) && i <= n && Link(v, i) == FALSE
    ensures -1 <= v[3] < |v| - 5 && Represents(AdjoinVector(v, i), done, todo + [i], n)
    ensures AdjoinVector(v, i)[0] == v[0]
  {
    assert i !in done && i !in todo;
    if todo != [] { assert v[3] == todo[|todo| - 1] && v[3] in todo; }
    var v' := AdjoinVector(v, i);
    AdjoinEntries(v, i);
    hide AdjoinVector, Marked, Link;
    AdjoinMarked(v, v', done, todo, i);
    ApartSnoc(done, todo, i);
    LinkedElsewhere(v, v', v[2], done);
    LinkedSnoc(v, v', v[4], todo, i);
    assert v'[1] == v'[..3][1] == v[1] && v'[2] == v'[..3][2] == v[2] && v'[0] == v'[..3][0] == v[0];
  }

  // ----- processing the new positions

  /** `conf-set-merge-new!`: the new positions become processed ones. */
  function MergeVector(v: seq<int>): seq<int>
    requires |v| > 5 && -3 <= v[1] < |v| - 5
  {
    v[v[1] + 5 := v[4]][1 := v[3]][3 := -1][4 := -1]
  }

  lemma MergeEntries(v: seq<int>)
    requires |v| > 5 && -3 <= v[1] < |v| - 5 && v[1] != -2 && v[1] != -1
    ensures var v' := MergeVector(v);
            |v'| == |v| && v'[0] == v[0] && v'[1] == v[3] && v'[2] == (if v[1] == -3 then v[4] else v[2]) &&
            v'[3] == -1 && v'[4] == -1 &&
            forall x: nat :: x + 5 < |v| ==> Link(v', x) == if x == v[1] then v[4] else Link(v, x)
  {
  }

  lemma LinkedConcat(v: seq<int>, v': seq<int>, h: int, s: seq<nat>, g: int, t: seq<nat>)
    requires Linked(v, h, s) && Linked(v, g, t) && |v'| == |v| && t != [] && Distinct(s)
    requires s != [] ==> Link(v', s[|s| - 1]) == g
    requires forall k :: 0 <= k < |s| - 1 ==> Link(v', s[k]) == Link(v, s[k])
    requires forall k :: 0 <= k < |t| ==> Link(v', t[k]) == Link(v, t[k])
    ensures Linked(v', if s == [] then g else h, s + t)
  {
    var u := s + t;
    forall k | 0 <= k < |u| ensures u[k] + 5 < |v'| && Link(v', u[k]) == Next(u, k) {
      hide Link;
      NextConcat(s, t, k);
      if k < |s| {
        assert u[k] == s[k];
      } else {
        assert u[k] == t[k - |s|];
      }
    }
  }

  lemma NextConcat(s: seq<nat>, t: seq<nat>, k: nat)
    requires k < |s| + |t| && t != []
    ensures Next(s + t, k) == if k < |s| - 1 then Next(s, k) else if k == |s| - 1 then t[0] else Next(t, k - |s|)
  {
  }

  lemma ApartConcat(s: seq<nat>, t: seq<nat>)
    requires Apart(s, t)
    ensures Apart(s + t, [])
  {
  }

  lemma MergeMarked(v: seq<int>, v': seq<int>, done: seq<nat>, todo: seq<nat>)
    requires |v| == |v'| > 5 && v[4] >= 0 && Marked(v, done, todo)
    requires forall x: nat :: x + 5 < |v| ==> Link(v', x) == if x == Tail(done, -3) then v[4] else Link(v, x)
    ensures Marked(v', done + todo, [])
  {
    forall x: nat | x + 5 < |v| ensures Link(v', x) == FALSE <==> x !in done + todo && x !in [] {
      assert x in done + todo <==> x in done || x in todo;
    }
  }

  lemma MergeTails(v: seq<int>, done: seq<nat>, todo: seq<nat>, n: nat)
    requires Represents(v, done, todo, n) && todo != []
    ensures (if done == [] then v[1] == -3 else 0 <= v[1] <= n) && v[3] == todo[|todo| - 1] && v[4] == todo[0]
  {
    if done != [] { assert v[1] == done[|done| - 1]; }
  }

  lemma MergeLinked(v: seq<int>, v': seq<int>, done: seq<nat>, todo: seq<nat>, n: nat)
    requires Represents(v, done, todo, n) && todo != [] && |v'| == |v|
    requires forall x: nat :: x + 5 < |v| ==> Link(v', x) == if x == v[1] then v[4] else Link(v, x)
    ensures Linked(v', if done == [] then v[4] else v[2], done + todo)
  {
    hide Link, Marked;
    LinkedConcat(v, v', v[2], done, v[4], todo);
  }

  lemma MergeRepresents(v: seq<int>, done: seq<nat>, todo: seq<nat>, n: nat)
    requires Represents(v, done, todo, n) && todo != []
    ensures -3 <= v[1] < |v| - 5 && Represents(MergeVector(v), done + todo, [], n)
    ensures MergeVector(v)[0] == v[0]
  {
    MergeTails(v, done, todo, n);
    hide MergeVector, Marked, Link, Linked, Apart;
    var v' := MergeVector(v);
    MergeEntries(v);
    MergeMarked(v, v', done, todo);
    ApartConcat(done, todo);
    MergeLinked(v, v', done, todo, n);
    MergeWithin(done, todo);
    hide Next, Tail, Head, Distinct;
  }

  lemma MergeWithin(done: seq<nat>, todo: seq<nat>)
    requires todo != []
    ensures Tail(done + todo, -3) == todo[|todo| - 1] && Head(done + todo) == if done == [] then todo[0] else Head(done)
  {
  }

  // ----- a state

  /** A set that has not been made yet, or its vector; entry 0 links the sets that have new positions. */
  datatype Slot = Absent | Vector(v: seq<int>)

  /** What the sets of a state hold: for each configuration the processed and the new positions, and
      the configurations with new positions in the order of the worklist. */
  datatype View = View(done: seq<seq<nat>>, todo: seq<seq<nat>>, queue: seq<nat>) {
    ghost predicate Has(c: int, i: int) {
      0 <= c < |done| && c < |todo| && (i in done[c] || i in todo[c])
    }

    /** One more new position. */
    ghost function Plus(c: nat, i: nat): View
      requires c < |todo|
    {
      View(done, todo[c := todo[c] + [i]], if todo[c] == [] then [c] + queue else queue)
    }

    /** The new positions of the first configuration of the worklist become processed. */
    ghost function Popped(): View
      requires queue != [] && queue[0] < |done| && queue[0] < |todo|
    {
      var c := queue[0];
      View(done[c := done[c] + todo[c]], todo[c := []], queue[1..])
    }
  }

  predicate SlotOk(slot: Slot, done: seq<nat>, todo: seq<nat>, n: nat) {
    match slot
    case Absent => done == [] && todo == []
    case Vector(v) => Represents(v, done, todo, n)
  }

  /** The worklist starts with `work` and goes on along the entries 0 of the sets. */
  predicate QueueOk(sets: seq<Slot>, work: int, view: View)
    requires |view.todo| == |sets|
  {
    work == Head(view.queue) && Distinct(view.queue) &&
    (forall c :: 0 <= c < |sets| ==> (c in view.queue <==> view.todo[c] != [])) &&
    forall k :: 0 <= k < |view.queue| ==>
      view.queue[k] < |sets| && sets[view.queue[k]].Vector? && |sets[view.queue[k]].v| > 0 &&
      sets[view.queue[k]].v[0] == Next(view.queue, k)
  }

  predicate SetsOk(sets: seq<Slot>, view: View, n: nat)
    requires |view.done| == |view.todo| == |sets|
  {
    forall c :: 0 <= c < |sets| ==> SlotOk(sets[c], view.done[c], view.todo[c], n)
  }

  /** Entry 0 is not part of the set. */
  lemma EntryZero(v: seq<int>, x: int, done: seq<nat>, todo: seq<nat>, n: nat)
    requires Represents(v, done, todo, n)
    ensures Represents(v[0 := x], done, todo, n)
  {
    var v' := v[0 := x];
    assert forall i: nat :: Link(v', i) == Link(v, i);
    hide Link;
    LinkedElsewhere(v, v', v[2], done);
    LinkedElsewhere(v, v', v[4], todo);
  }

  /** The vector with a position added and, when it is the first new one, the set put in front of the worklist. */
  function Adjoined(v: seq<int>, i: nat, work: int): seq<int>
    requires i + 5 < |v| && -1 <= v[3] < |v| - 5
  {
    if v[3] < 0 then AdjoinVector(v, i)[0 := work] else AdjoinVector(v, i)
  }

  lemma AdjoinedOk(v: seq<int>, done: seq<nat>, todo: seq<nat>, n: nat, i: nat, work: int)
    requires Represents(v, done, todo, n) && i <= n && i !in done && i !in todo
    ensures |v| == n + 6 && -1 <= v[3] < |v| - 5 && (v[3] < 0 <==> todo == [])
    ensures Represents(Adjoined(v, i, work), done, todo + [i], n)
    ensures Adjoined(v, i, work)[0] == if todo == [] then work else v[0]
  {
    AdjoinRepresents(v, done, todo, n, i);
    EntryZero(AdjoinVector(v, i), work, done, todo + [i], n);
  }

  lemma QueueAfterAdjoin(sets: seq<Slot>, work: int, view: View, c: nat, i: nat, v: seq<int>)
    requires |view.todo| == |sets| && QueueOk(sets, work, view) && c < |sets| && sets[c].Vector? && |sets[c].v| > 0 && |v| > 0
    requires v[0] == if view.todo[c] == [] then work else sets[c].v[0]
    ensures QueueOk(sets[c := Vector(v)], if view.todo[c] == [] then c else work, view.Plus(c, i))
  {
    var sets', view' := sets[c := Vector(v)], view.Plus(c, i);
    forall k | 0 <= k < |view'.queue|
      ensures view'.queue[k] < |sets'| && sets'[view'.queue[k]].Vector? && |sets'[view'.queue[k]].v| > 0 &&
              sets'[view'.queue[k]].v[0] == Next(view'.queue, k)
    {
      if view.todo[c] == [] && k > 0 {
        assert view'.queue[k] == view.queue[k - 1] && view.queue[k - 1] in view.queue;
        assert Next(view'.queue, k) == Next(view.queue, k - 1);
      }
    }
  }

  lemma QueueAfterPop(sets: seq<Slot>, work: int, view: View, v: seq<int>)
    requires |view.todo| == |view.done| == |sets| && QueueOk(sets, work, view) && view.queue != [] && |v| > 0
    requires sets[view.queue[0]].v[0] == v[0]
    ensures QueueOk(sets[view.queue[0] := Vector(v)], v[0], view.Popped())
  {
    var c := view.queue[0];
    var sets', view' := sets[c := Vector(v)], view.Popped();
    assert view.queue == [c] + view'.queue;
    forall k | 0 <= k < |view'.queue|
      ensures view'.queue[k] < |sets'| && sets'[view'.queue[k]].Vector? && |sets'[view'.queue[k]].v| > 0 &&
              sets'[view'.queue[k]].v[0] == Next(view'.queue, k)
    {
      assert view'.queue[k] == view.queue[k + 1] && Next(view'.queue, k) == Next(view.queue, k + 1);
    }
  }

  lemma VectorSize(v: seq<int>, done: seq<nat>, todo: seq<nat>, n: nat)
    requires Represents(v, done, todo, n)
    ensures |v| == n + 6
  {
  }

  lemma SetsAfter(sets: seq<Slot>, view: View, view': View, c: nat, v: seq<int>, n: nat)
    requires |view.done| == |view.todo| == |sets| && c < |sets| && SetsOk(sets, view, n)
    requires |view'.done| == |view'.todo| == |sets| && Represents(v, view'.done[c], view'.todo[c], n)
    requires forall d :: 0 <= d < |sets| && d != c ==> view'.done[d] == view.done[d] && view'.todo[d] == view.todo[d]
    ensures SetsOk(sets[c := Vector(v)], view', n)
  {
    hide Represents;
  }

  class State {
    const num: nat
    var work: int
    var sets: seq<Slot>
    ghost var view: View

    constructor (num: nat, confs: nat)
      ensures Valid() && this.num == num && |sets| == confs
      ensures view == View(seq(confs, _ => []), seq(confs, _ => []), []) && NoneEmpty()
    {
      this.num := num;
      work := -1;
      sets := seq(confs, _ => Absent);
      view := View(seq(confs, _ => []), seq(confs, _ => []), []);
    }

    ghost predicate Valid()
      reads this
    {
      |view.done| == |view.todo| == |sets| && SetsOk(sets, view, num) && QueueOk(sets, work, view)
    }

    /** Every set that has been made has a position in it. */
    ghost predicate NoneEmpty()
      reads this
    {
      forall c :: 0 <= c < |sets| && sets[c].Vector? ==> exists i :: view.Has(c, i)
    }

    /** The entry for position `i` is not `false`. Past the end of the vector it is not either. */
    method Holds(c: nat, i: nat) returns (r: bool)
      requires Valid() && c < |sets|
      ensures i <= num ==> r == view.Has(c, i)
      ensures num < i ==> r == sets[c].Vector?
    {
      match sets[c]
      case Absent => r := false;
      case Vector(v) => r := if i + 5 < |v| then v[i + 5] != FALSE else true;
    }

    /** `conf-set-get*`: make the set if there is none. */
    method Get(c: nat)
      requires Valid() && c < |sets|
      modifies `sets
      ensures Valid() && |sets| == old(|sets|) && sets[c].Vector?
      ensures forall d :: 0 <= d < |sets| && d != c ==> sets[d] == old(sets[d])
      ensures old(sets[c]).Vector? ==> sets == old(sets)
    {
      if sets[c].Absent? {
        NewRepresents(num);
        sets := sets[c := Vector(NewVector(num))];
      }
    }

    /** `conf-set-adjoin`: a new position at the end of the list of new ones. */
    method Adjoin(c: nat, i: nat)
      requires Valid() && c < |sets| && sets[c].Vector? && i <= num && !view.Has(c, i)
      modifies `work, `sets, `view
      ensures Valid() && |sets| == old(|sets|) && view == old(view).Plus(c, i) && sets[c].Vector?
      ensures forall d :: 0 <= d < |sets| && d != c ==> sets[d] == old(sets[d])
    {
      hide Represents, QueueOk;
      AdjoinedOk(sets[c].v, view.done[c], view.todo[c], num, i, work);
      QueueAfterAdjoin(sets, work, view, c, i, Adjoined(sets[c].v, i, work));
      var v, tail := Adjoined(sets[c].v, i, work), sets[c].v[3];
      sets := sets[c := Vector(v)];
      if tail < 0 {
        work := c;
      }
      view := view.Plus(c, i);
    }

    /** The positions `added` have been put into the set of `c`, and nothing else has changed. */
    twostate predicate Added(new c: nat, new added: seq<nat>)
      reads this
    {
      Valid() && |sets| == old(|sets|) && view.done == old(view.done) &&
      forall e, k {:trigger view.Has(e, k)} :: view.Has(e, k) <==> old(view.Has(e, k)) || (e == c && c < |sets| && k in added)
    }

    /** Put a position into the set of `c` unless it is there. */
    method Add(c: nat, i: nat)
      requires Valid() && c < |sets| && i <= num
      modifies `work, `sets, `view
      ensures Added(c, [i]) && (old(NoneEmpty()) ==> NoneEmpty())
    {
      hide Represents, QueueOk, SetsOk;
      Get(c);
      var there := Holds(c, i);
      if !there {
        Adjoin(c, i);
      }
      assert view.Has(c, i);
      if old(NoneEmpty()) {
        forall d | 0 <= d < |sets| && sets[d].Vector? ensures exists k :: view.Has(d, k) {
          if d != c {
            assert old(sets[d]).Vector?;
            ghost var k :| old(view.Has(d, k));
            assert view.Has(d, k);
          }
        }
      }
    }

    /** `conf-set-union`: add the processed positions of another set. */
    method Union(c: nat, v: seq<int>, ghost d: seq<nat>)
      requires Valid() && c < |sets| && |v| > 5 && Linked(v, v[2], d) && forall k :: 0 <= k < |d| ==> d[k] <= num
      modifies `work, `sets, `view
      ensures Added(c, d)
    {
      hide Valid;
      var i := v[2];
      ghost var k := 0;
      assert d[..0] == [];
      while i >= 0
        invariant 0 <= k <= |d| && i == (if k < |d| then d[k] else -1)
        invariant Added(c, d[..k])
        decreases |d| - k
      {
        Add(c, i);
        assert d[..k + 1] == d[..k] + [d[k]];
        i := v[i + 5];
        k := k + 1;
      }
      assert d[..k] == d;
    }

    /** Take the first configuration of the worklist and make its new positions processed ones;
        `head` is the first of them. */
    method Pop() returns (c: nat, head: int)
      requires Valid() && work >= 0
      modifies `work, `sets, `view
      ensures old(view.queue) != [] && c == old(view.queue[0]) && c < |sets| == old(|sets|) && old(view.todo[c]) != []
      ensures Valid() && view == old(view).Popped() && head == old(view.todo[c][0]) && sets[c].Vector?
      ensures old(NoneEmpty()) ==> NoneEmpty()
    {
      hide Represents, QueueOk, MergeVector, SetsOk;
      First();
      PoppedHas(view);
      c := work;
      var v := sets[c].v;
      head := v[4];
      MergeRepresents(v, view.done[c], view.todo[c], num);
      assert |MergeVector(v)| == num + 6 by { VectorSize(MergeVector(v), view.done[c] + view.todo[c], [], num); }
      QueueAfterPop(sets, work, view, MergeVector(v));
      SetsAfter(sets, view, view.Popped(), c, MergeVector(v), num);
      work := v[0];
      sets := sets[c := Vector(MergeVector(v))];
      view := view.Popped();
    }

    lemma First()
      requires Valid() && work >= 0
      ensures view.queue != [] && work == view.queue[0] && work < |sets| && view.todo[work] != []
      ensures sets[work].Vector? && |sets[work].v| == num + 6 && sets[work].v[4] == view.todo[work][0]
      ensures Represents(sets[work].v, view.done[work], view.todo[work], num)
    {
      assert view.queue[0] in view.queue;
    }

    /** Positions are at most the number of the state, and a set without a vector is empty. */
    lemma Bounded(c: nat)
      requires Valid() && c < |sets|
      ensures forall i :: view.Has(c, i) ==> 0 <= i <= num && sets[c].Vector?
      ensures Distinct(view.done[c]) && forall k :: 0 <= k < |view.done[c]| ==> view.done[c][k] <= num
      ensures sets[c].Vector? ==> |sets[c].v| == num + 6 && Linked(sets[c].v, sets[c].v[2], view.done[c])
      ensures sets[c].Absent? ==> view.done[c] == []
    {
      hide QueueOk;
      assert SlotOk(sets[c], view.done[c], view.todo[c], num);
    }

    /** Popping moves positions and loses none. */
    lemma PoppedHas(v: View)
      requires v.queue != [] && v.queue[0] < |v.done| && |v.done| == |v.todo|
      ensures forall c, i :: v.Popped().Has(c, i) <==> v.Has(c, i)
    {
    }

    /** When the worklist is empty every position has been processed. */
    lemma AllDone()
      requires Valid() && work < 0
      ensures view.queue == [] && forall c, i :: view.Has(c, i) ==> i in view.done[c]
    {
    }
  }
}
