/** Building, editing and resatisfying constraint graphs, and the chain test of the DeltaBlue benchmark. */
module DeltaBlueChain {

  import opened DeltaBlue

  /** What holds between the operations of the planner. */
  ghost predicate Ready(p: Planner)
    reads p, p.vars, p.cons
  {
    Sound(p.vars, p.cons) && Flow(p.vars, FlowGraph(p.cons), {}) && MarksUpTo(Marks(p.vars), p.currentMark)
  }

  method NewVariable(p: Planner) returns (v: Variable)
    requires Ready(p)
    modifies p`vars
    ensures Ready(p) && fresh(v) && p.vars == old(p.vars) + {v} && v !in old(p.vars)
    ensures v.determinedBy == null && v.value == 0 && FlowGraph(p.cons) == old(FlowGraph(p.cons))
  {
    hide *;
    v := new Variable();
    MoreVariables(p, v);
    p.vars := p.vars + {v};
    IsReady(p);
  }

  lemma MoreVariables(p: Planner, v: Variable)
    requires Ready(p) && v !in p.vars && v.constraints == [] && v.determinedBy == null && v.mark == 0 && v.walkStrength == WEAKEST && v.stay
    ensures Sound(p.vars + {v}, p.cons) && Flow(p.vars + {v}, FlowGraph(p.cons), {}) && MarksUpTo(Marks(p.vars + {v}), p.currentMark)
  {
    assert Lists(p.vars + {v}) == Lists(p.vars)[v := []];
    assert Dets(p.vars + {v}) == Dets(p.vars)[v := null];
    assert Marks(p.vars + {v}) == Marks(p.vars)[v := 0];
  }

  lemma IsReady(p: Planner)
    ensures Ready(p) <==> Sound(p.vars, p.cons) && Flow(p.vars, FlowGraph(p.cons), {}) && MarksUpTo(Marks(p.vars), p.currentMark)
  {
  }

  /** The constructors of constraints: enter the constraint in the graph and let the planner satisfy it. */
  method NewConstraint(p: Planner, kind: Kind, v1: Variable, v2: Variable, strength: Strength, ghost pos: map<Variable, int>)
    returns (c: Constraint, ok: bool, ghost lost: Constraint?)
    requires Ready(p) && v1 in p.vars && v2 in p.vars && (!kind.Equality? ==> v1 == v2)
    modifies p`currentMark, p`cons, p.cons`direction, p.cons`satisfied, p.vars
    ensures fresh(c) && c.kind == kind && c.v1 == v1 && c.v2 == v2 && c.strength == strength
    ensures c !in old(p.cons) && p.cons == old(p.cons) + {c}
    ensures ok ==> Ready(p) && FlowGraph(p.cons).Keys == Without(old(FlowGraph(p.cons)).Keys + {c}, lost)
    ensures ok && lost != null ==> TooWeak(Snap(p.vars, p.cons), lost, p.currentMark)
    ensures ok && !kind.Equality? && strength < old(v1.walkStrength) ==> lost != c
    ensures ok ==> OnlyCarried(Now(p.vars, p.cons), p.vars, c, old(Values(p.vars)))
    ensures ok && (!kind.Equality? || !c.IsSatisfied()) ==> v1.value == old(v1.value)
    ensures ok && !c.IsSatisfied() ==> Values(p.vars) == old(Values(p.vars))
    ensures Line(p.vars, p.cons, pos) && (kind.Equality? ==> old(v2.determinedBy) == null) ==> ok
  {
    hide *;
    ghost var g := FlowGraph(p.cons);
    c := new Constraint(kind, v1, v2, strength);
    NotSatisfied(c);
    AddToGraph(p, c);
    IsReady(p);
    ok, lost := p.IncrementalAdd(c, pos);
    IsReady(p);
  }

  lemma NotSatisfied(c: Constraint)
    requires !c.satisfied && c.direction == NoFlow
    ensures !c.IsSatisfied() && (Starts(c) <==> (c.kind.Equality? ==> c.v2.determinedBy == null))
  {
  }

  method AddToGraph(p: Planner, c: Constraint)
    requires Ready(p) && c !in p.cons && c.v1 in p.vars && c.v2 in p.vars && (!c.kind.Equality? ==> c.v1 == c.v2) && !c.IsSatisfied()
    modifies p`cons, c.v1`constraints, c.v2`constraints
    ensures Ready(p) && p.cons == old(p.cons) + {c} && FlowGraph(p.cons) == old(FlowGraph(p.cons)) && Values(p.vars) == old(Values(p.vars))
  {
    hide *;
    IsReady(p);
    SoundIs(p.vars, p.cons);
    ghost var lists := Lists(p.vars);
    AddConstraint(p, c.v1, c);
    if c.kind.Equality? {
      AddConstraint(p, c.v2, c);
    }
    MoreConstraints(lists, p.cons, c, Lists(p.vars));
    SameGraph(p.cons, c);
    SoundIs(p.vars, p.cons + {c});
    p.cons := p.cons + {c};
    IsReady(p);
  }

  method AddConstraint(p: Planner, v: Variable, c: Constraint)
    requires v in p.vars
    modifies v`constraints
    ensures Lists(p.vars) == WithConstraint(old(Lists(p.vars)), v, c)
  {
    v.constraints := v.constraints + [c];
  }

  ghost function WithConstraint(lists: map<Variable, seq<Constraint>>, v: Variable, c: Constraint): map<Variable, seq<Constraint>> {
    if v in lists then lists[v := lists[v] + [c]] else lists
  }

  lemma SoundIs(vars: set<Variable>, cons: set<Constraint>)
    ensures Sound(vars, cons) <==> Wired(Lists(vars), cons) && Determined(Dets(vars), FlowGraph(cons))
    ensures Lists(vars).Keys == vars
  {
  }

  lemma SameGraph(cons: set<Constraint>, c: Constraint)
    requires !c.IsSatisfied()
    ensures FlowGraph(cons + {c}) == FlowGraph(cons)
  {
  }

  lemma MoreConstraints(lists: map<Variable, seq<Constraint>>, cons: set<Constraint>, c: Constraint, lists': map<Variable, seq<Constraint>>)
    requires Wired(lists, cons) && c !in cons && c.v1 in lists && c.v2 in lists && (!c.kind.Equality? ==> c.v1 == c.v2)
    requires var one := WithConstraint(lists, c.v1, c); lists' == if c.kind.Equality? then WithConstraint(one, c.v2, c) else one
    ensures Wired(lists', cons + {c})
  {
    hide Listed;
    forall v | v in lists' ensures Listed(v, lists'[v], cons + {c}) {
      MoreListed(v, lists[v], cons, c, lists'[v]);
    }
  }

  lemma MoreListed(v: Variable, cs: seq<Constraint>, cons: set<Constraint>, c: Constraint, cs': seq<Constraint>)
    requires Listed(v, cs, cons) && c !in cons
    requires cs' == cs || (cs' == cs + [c] && (c.v1 == v || c.v2 == v)) || (cs' == cs + [c] + [c] && c.v1 == v == c.v2)
    ensures Listed(v, cs', cons + {c})
  {
    forall i, j | 0 <= i < j < |cs'| && cs'[i] == cs'[j] ensures cs'[i].v1 == cs'[i].v2 {
      if j < |cs| {
        assert cs[i] == cs[j];
      } else if i < |cs| {
        assert cs[i] in cs;
      }
    }
  }

  // ----- changing an edited variable

  ghost predicate HoldOutside(g: Graph, plan: seq<Constraint>, val: map<Variable, int>) {
    Ends(g, val.Keys) && forall c :: c in g && c !in plan ==> Holds(g, val, c)
  }

  ghost predicate AllHold(g: Graph, val: map<Variable, int>) {
    Ends(g, val.Keys) && forall c :: c in g ==> Holds(g, val, c)
  }

  /** A plan for the edit constraints of `src`. */
  ghost predicate Plan(g: Graph, plan: seq<Constraint>, src: set<Constraint>) {
    Trace(g, plan, src) && Covered(g, plan, [], src) && forall s :: s in src ==> s in g && s.IsInput() && !g[s].equality
  }

  lemma UpdateHolds(
    g: Graph, plan: seq<Constraint>, src: set<Constraint>, edit: Constraint, val: map<Variable, int>, value: int, val': map<Variable, int>
  )
    requires OneEach(g) && Plan(g, plan, src) && edit in src && HoldOutside(g, plan, val)
    requires HoldTo(g, plan, |plan|, val') && KeptOutside(val[g[edit].output := value], val', Computed(g, plan))
    ensures AllHold(g, val') && val'[g[edit].output] == value
  {
    var v := g[edit].output;
    assert edit in plan;
    assert v !in Computed(g, plan) && v in Outs(g, plan) && Computed(g, plan) <= Outs(g, plan);
    forall c | c in g ensures Holds(g, val', c) {
      if c in plan {
        var i :| 0 <= i < |plan| && plan[i] == c;
      } else if g[c].equality {
        Outside(g, plan, src, c);
        assert Holds(g, val, c);
      }
    }
  }

  /** The flow but for the values. */
  ghost predicate StrengthFlow(vars: set<Variable>, g: Graph)
    reads vars`determinedBy, vars`walkStrength, vars`stay
  {
    Loose(vars, Dets(vars)) &&
    forall c :: c in g ==>
      var e := g[c];
      e.input in vars && e.output in vars &&
      if e.equality then e.output.walkStrength == WeakestOf(c.strength, e.input.walkStrength) && e.output.stay == e.input.stay
      else e.output.walkStrength == c.strength && e.output.stay == !c.IsInput()
  }

  lemma FlowStrength(vars: set<Variable>, g: Graph)
    requires Flow(vars, g, {})
    ensures StrengthFlow(vars, g)
  {
  }

  lemma FlowHolds(vars: set<Variable>, g: Graph)
    requires StrengthFlow(vars, g) && AllHold(g, Values(vars))
    ensures Flow(vars, g, {})
  {
    forall c | c in g ensures FlowAt(c, g[c]) { assert Holds(g, Values(vars), c); }
  }

  /** Write an edited variable and execute the plan: all satisfied equalities hold again. */
  method Update(p: Planner, plan: seq<Constraint>, v: Variable, value: int, ghost src: set<Constraint>, ghost edit: Constraint)
    requires Ready(p) && Plan(FlowGraph(p.cons), plan, src) && HoldOutside(FlowGraph(p.cons), plan, Values(p.vars))
    requires edit in src && v == edit.v1
    modifies p.vars`value
    ensures Ready(p) && FlowGraph(p.cons) == old(FlowGraph(p.cons))
    ensures AllHold(FlowGraph(p.cons), Values(p.vars)) && v.value == value
    ensures KeptOutside(old(Values(p.vars)), Values(p.vars), Computed(FlowGraph(p.cons), plan) + {v})
  {
    hide *;
    ghost var g, val := FlowGraph(p.cons), Values(p.vars);
    IsReady(p);
    PlanParts(p, plan, src, edit);
    FlowStrength(p.vars, g);
    ValueAt(p.vars, v);
    SetValue(p, v, value);
    p.Execute(plan, src);
    UpdateHolds(g, plan, src, edit, val, value, Values(p.vars));
    KeptBut(val, v, value, Values(p.vars), Computed(g, plan));
    ValueAt(p.vars, v);
    FlowHolds(p.vars, g);
    IsReady(p);
  }

  lemma PlanParts(p: Planner, plan: seq<Constraint>, src: set<Constraint>, edit: Constraint)
    requires Sound(p.vars, p.cons) && Plan(FlowGraph(p.cons), plan, src) && edit in src
    ensures OneEach(FlowGraph(p.cons)) && Trace(FlowGraph(p.cons), plan, src) && (forall s :: s in src ==> s.IsInput())
    ensures edit in FlowGraph(p.cons) && FlowGraph(p.cons)[edit].output == edit.v1 && edit.v1 in p.vars
  {
    DeterminedOneEach(Dets(p.vars), FlowGraph(p.cons));
    InGraph(p.vars, p.cons, edit);
  }

  method SetValue(p: Planner, v: Variable, value: int)
    requires v in p.vars
    modifies v`value
    ensures Values(p.vars) == old(Values(p.vars))[v := value]
  {
    v.value := value;
  }

  lemma ValueAt(vars: set<Variable>, v: Variable)
    requires v in vars
    ensures v in Values(vars) && Values(vars)[v] == v.value
  {
  }

  lemma KeptBut(val: map<Variable, int>, v: Variable, value: int, val': map<Variable, int>, changed: set<Variable>)
    requires v in val && KeptOutside(val[v := value], val', changed)
    ensures KeptOutside(val, val', changed + {v})
  {
  }

  // ----- the chain

  /** The variables `vs` in a row, joined by the equalities `es`. */
  ghost predicate Chain(vars: set<Variable>, cons: set<Constraint>, vs: seq<Variable>, es: seq<Constraint>, pos: map<Variable, int>) {
    |vs| == |es| + 1 && pos.Keys == vars && (forall v :: v in vars ==> v in vs) && (forall i :: 0 <= i < |vs| ==> vs[i] in vars && pos[vs[i]] == i) &&
    (forall i :: 0 <= i < |es| ==> es[i] in cons && es[i].kind.Equality? && es[i].strength == REQUIRED && es[i].v1 == vs[i] && es[i].v2 == vs[i + 1]) &&
    (forall c :: c in cons && c.kind.Equality? ==> c in es)
  }

  /** The place of an equality in the chain. */
  lemma ChainPlace(vars: set<Variable>, cons: set<Constraint>, vs: seq<Variable>, es: seq<Constraint>, pos: map<Variable, int>, c: Constraint)
    returns (i: nat)
    requires Chain(vars, cons, vs, es, pos) && c in cons && c.kind.Equality?
    ensures i < |es| && es[i] == c && c.strength == REQUIRED && c.v1 == vs[i] && c.v2 == vs[i + 1]
    ensures c.v1 in vars && c.v2 in vars && pos[c.v1] == i && pos[c.v2] == i + 1
  {
    assert c in es;
    i :| 0 <= i < |es| && es[i] == c;
  }

  lemma ChainPositions(vars: set<Variable>, cons: set<Constraint>, vs: seq<Variable>, es: seq<Constraint>, pos: map<Variable, int>, u: Variable, v: Variable)
    requires Chain(vars, cons, vs, es, pos) && u in vars && v in vars && pos[u] == pos[v]
    ensures u == v
  {
    var i :| 0 <= i < |vs| && vs[i] == u;
    var j :| 0 <= j < |vs| && vs[j] == v;
  }

  lemma ChainJoins(vars: set<Variable>, cons: set<Constraint>, vs: seq<Variable>, es: seq<Constraint>, pos: map<Variable, int>, c: Constraint, d: Constraint)
    requires Chain(vars, cons, vs, es, pos) && c in cons && d in cons && c.kind.Equality? && Joins(d, c.v1, c.v2)
    ensures c == d
  {
    var i := ChainPlace(vars, cons, vs, es, pos, c);
    var j := ChainPlace(vars, cons, vs, es, pos, d);
  }

  lemma ChainLine(vars: set<Variable>, cons: set<Constraint>, vs: seq<Variable>, es: seq<Constraint>, pos: map<Variable, int>)
    requires Chain(vars, cons, vs, es, pos)
    ensures Line(vars, cons, pos)
  {
    assert pos.Keys == vars;
    hide Chain;
    forall c | c in cons && c.kind.Equality?
      ensures c.strength == REQUIRED && c.v1 in vars && c.v2 in vars && pos[c.v2] - pos[c.v1] == 1
    {
      var i := ChainPlace(vars, cons, vs, es, pos, c);
    }
    forall u, v | u in vars && v in vars && pos[u] == pos[v] ensures u == v { ChainPositions(vars, cons, vs, es, pos, u, v); }
    forall c, d | c in cons && d in cons && c.kind.Equality? && Joins(d, c.v1, c.v2) ensures c == d {
      ChainJoins(vars, cons, vs, es, pos, c, d);
    }
  }

  /** A required equality never is too weak. */
  lemma RequiredHolds(s: Snapshot, c: Constraint, mark: nat)
    requires c.kind.Equality? && c.strength == REQUIRED
    ensures !TooWeak(s, c, mark)
  {
  }

  /** Along satisfied required equalities all strengths are the same, whatever their directions. */
  lemma {:induction false} SameWalk(
    s: Snapshot, vars: set<Variable>, cons: set<Constraint>, vs: seq<Variable>, es: seq<Constraint>, pos: map<Variable, int>, i: nat
  )
    requires Chain(vars, cons, vs, es, pos) && Strengths(s, vars) && EdgesOf(s.g, cons) && (forall e :: e in es ==> e in s.g) && i < |vs|
    ensures vs[0] in vars && vs[i] in vars && s.walk[vs[i]] == s.walk[vs[0]]
  {
    if i > 0 {
      SameWalk(s, vars, cons, vs, es, pos, i - 1);
      var e := es[i - 1];
      assert Joins(e, s.g[e].input, s.g[e].output);
    }
  }

  /** If the variables up to `i` all were determined by equalities, each would be by the equality after it. */
  lemma {:induction false} Pushed(
    det: map<Variable, Constraint?>, g: Graph, vars: set<Variable>, cons: set<Constraint>, vs: seq<Variable>, es: seq<Constraint>,
    pos: map<Variable, int>, i: nat
  )
    requires Chain(vars, cons, vs, es, pos) && Determined(det, g) && det.Keys == vars && EdgesOf(g, cons) && i < |vs|
    requires (forall c :: c in g ==> c in es) && forall j :: 0 <= j <= i ==> vs[j] in vars && det[vs[j]] != null
    ensures i < |es| && det[vs[i]] == es[i]
  {
    if i > 0 { Pushed(det, g, vars, cons, vs, es, pos, i - 1); }
    var c := det[vs[i]];
    assert c in g && g[c].output == vs[i] && c in cons && c in es;
    ChainKind(vars, cons, vs, es, pos, c, i);
    assert Joins(c, g[c].input, g[c].output);
    hide Chain, EdgesOf;
    var j := ChainPlace(vars, cons, vs, es, pos, c);
  }

  lemma ChainKind(vars: set<Variable>, cons: set<Constraint>, vs: seq<Variable>, es: seq<Constraint>, pos: map<Variable, int>, c: Constraint, i: nat)
    requires Chain(vars, cons, vs, es, pos) && c in es && i < |vs|
    ensures c.kind.Equality? && pos[vs[i]] == i
  {
  }

  /** The equalities leave a variable undetermined. */
  lemma SomeFree(
    det: map<Variable, Constraint?>, g: Graph, vars: set<Variable>, cons: set<Constraint>, vs: seq<Variable>, es: seq<Constraint>, pos: map<Variable, int>
  ) returns (j: nat)
    requires Chain(vars, cons, vs, es, pos) && Determined(det, g) && det.Keys == vars && EdgesOf(g, cons) && forall c :: c in g ==> c in es
    ensures j < |vs| && vs[j] in vars && det[vs[j]] == null
  {
    j := 0;
    if k :| 0 <= k < |vs| && det[vs[k]] == null {
      j := k;
    } else {
      Pushed(det, g, vars, cons, vs, es, pos, |vs| - 1);
    }
  }

  /** With nothing but the equalities, all strengths are the weakest. */
  lemma AllWeakest(vars: set<Variable>, cons: set<Constraint>, vs: seq<Variable>, es: seq<Constraint>, pos: map<Variable, int>, i: nat)
    requires Chain(vars, cons, vs, es, pos) && Sound(vars, cons) && Flow(vars, FlowGraph(cons), {}) && FlowGraph(cons).Keys == Elems(es) && i < |vs|
    ensures vs[i] in vars && vs[i].walkStrength == WEAKEST
  {
    hide Chain, Sound, Flow, EdgesOf, Determined, FlowGraph;
    var s, det := Snap(vars, cons), Dets(vars);
    SnapStrengths(vars, cons);
    SoundIs(vars, cons);
    var j := SomeFree(det, s.g, vars, cons, vs, es, pos);
    SameWalk(s, vars, cons, vs, es, pos, j);
    SameWalk(s, vars, cons, vs, es, pos, i);
    FreeWeakest(vars, cons, vs[j]);
  }

  lemma FreeWeakest(vars: set<Variable>, cons: set<Constraint>, v: Variable)
    requires Flow(vars, FlowGraph(cons), {}) && v in vars && v.determinedBy == null
    ensures v.walkStrength == WEAKEST
  {
    assert Dets(vars)[v] == null;
  }

  /** Equality `i` of the chain flows from variable `i` to the next one. */
  ghost predicate FlowsOn(g: Graph, vs: seq<Variable>, es: seq<Constraint>, i: nat) {
    i < |es| && i + 1 < |vs| && es[i] in g && g[es[i]].input == vs[i] && g[es[i]].output == vs[i + 1]
  }

  /** With an edit constraint on the first variable, all equalities flow forward. */
  lemma {:induction false} AllForward(
    g: Graph, vars: set<Variable>, cons: set<Constraint>, vs: seq<Variable>, es: seq<Constraint>, pos: map<Variable, int>, edit: Constraint, i: nat
  )
    requires Chain(vars, cons, vs, es, pos) && OneEach(g) && EdgesOf(g, cons) && (forall e :: e in es ==> e in g)
    requires edit in g && !g[edit].equality && g[edit].output == vs[0] && i < |es|
    ensures g[es[i]].equality && FlowsOn(g, vs, es, i)
  {
    if i > 0 { AllForward(g, vars, cons, vs, es, pos, edit, i - 1); }
    var e := es[i];
    assert Joins(e, g[e].input, g[e].output);
    assert pos[vs[i]] == i && pos[vs[i + 1]] == i + 1;
    if i > 0 { assert es[i - 1] != e by { assert es[i - 1].v1 == vs[i - 1] && pos[vs[i - 1]] == i - 1; } }
  }

  /** All equalities are in the plan. */
  lemma {:induction false} AllPlanned(
    g: Graph, vars: set<Variable>, cons: set<Constraint>, vs: seq<Variable>, es: seq<Constraint>, pos: map<Variable, int>, edit: Constraint,
    plan: seq<Constraint>, i: nat
  )
    requires Chain(vars, cons, vs, es, pos) && OneEach(g) && EdgesOf(g, cons) && (forall e :: e in es ==> e in g)
    requires edit in g && !g[edit].equality && g[edit].output == vs[0] && i < |es| && Covered(g, plan, [], {edit})
    ensures es[i] in plan
  {
    AllForward(g, vars, cons, vs, es, pos, edit, i);
    var d := if i == 0 then edit else es[i - 1];
    if i > 0 {
      AllForward(g, vars, cons, vs, es, pos, edit, i - 1);
      AllPlanned(g, vars, cons, vs, es, pos, edit, plan, i - 1);
    }
    assert d != es[i] by { assert g[es[i]].output == vs[i + 1] && pos[vs[i + 1]] == i + 1 && pos[vs[i]] == i; }
    var k :| 0 <= k < |plan| && plan[k] == d;
    assert Feeds(g, plan[k], es[i]);
  }

  /** When all equalities hold, all values are the same. */
  lemma {:induction false} SameValue(
    g: Graph, val: map<Variable, int>, vars: set<Variable>, cons: set<Constraint>, vs: seq<Variable>, es: seq<Constraint>, pos: map<Variable, int>, i: nat
  )
    requires Chain(vars, cons, vs, es, pos) && EdgesOf(g, cons) && (forall e :: e in es ==> e in g) && val.Keys == vars && AllHold(g, val) && i < |vs|
    ensures vs[0] in vars && vs[i] in vars && val[vs[i]] == val[vs[0]]
  {
    if i > 0 {
      SameValue(g, val, vars, cons, vs, es, pos, i - 1);
      var e := es[i - 1];
      assert Joins(e, g[e].input, g[e].output) && Holds(g, val, e);
    }
  }

  /** The chain with all its equalities satisfied. */
  ghost predicate Built(p: Planner, vs: seq<Variable>, es: seq<Constraint>, pos: map<Variable, int>)
    reads p, p.vars, p.cons
  {
    Ready(p) && Chain(p.vars, p.cons, vs, es, pos) && Elems(es) <= FlowGraph(p.cons).Keys
  }

  lemma ChainStart(p: Planner, v: Variable)
    requires Ready(p) && p.vars == {v} && p.cons == {}
    ensures Built(p, [v], [], map[v := 0]) && Elems([]) == {} && FlowGraph(p.cons).Keys == {}
  {
  }

  lemma EmptyReady(p: Planner)
    requires p.vars == {} && p.cons == {}
    ensures Ready(p)
  {
  }

  lemma ChainMore(
    vars: set<Variable>, cons: set<Constraint>, vs: seq<Variable>, es: seq<Constraint>, pos: map<Variable, int>, v: Variable, e: Constraint
  )
    requires Chain(vars, cons, vs, es, pos) && v !in vars && e.kind.Equality? && e.strength == REQUIRED && e.v1 == vs[|vs| - 1] && e.v2 == v
    ensures Chain(vars + {v}, cons + {e}, vs + [v], es + [e], pos[v := |vs|])
  {
  }

  /** Required equalities are not lost. */
  lemma NoneLost(s: Snapshot, es: seq<Constraint>, all: set<Constraint>, lost: Constraint?, mark: nat)
    requires (forall e :: e in es ==> e.kind.Equality? && e.strength == REQUIRED) && Elems(es) <= all && (lost != null ==> TooWeak(s, lost, mark))
    ensures Elems(es) <= Without(all, lost)
  {
    if lost != null && lost in es { RequiredHolds(s, lost, mark); }
  }

  lemma BuiltParts(p: Planner, vs: seq<Variable>, es: seq<Constraint>, pos: map<Variable, int>)
    requires Built(p, vs, es, pos)
    ensures Ready(p) && Chain(p.vars, p.cons, vs, es, pos) && |vs| == |es| + 1 && (forall v :: v in vs ==> v in p.vars)
    ensures forall e :: e in es ==> e.kind.Equality? && e.strength == REQUIRED
    ensures Elems(es) <= FlowGraph(p.cons).Keys && Line(p.vars, p.cons, pos)
  {
    ChainLine(p.vars, p.cons, vs, es, pos);
  }

  lemma IsBuilt(p: Planner, vs: seq<Variable>, es: seq<Constraint>, pos: map<Variable, int>)
    requires Ready(p) && Chain(p.vars, p.cons, vs, es, pos) && Elems(es) <= FlowGraph(p.cons).Keys
    ensures Built(p, vs, es, pos)
  {
  }

  lemma ElemsMore(es: seq<Constraint>, e: Constraint)
    ensures Elems(es + [e]) == Elems(es) + {e} && forall c :: c in es + [e] ==> c in es || c == e
  {
  }

  lemma WithoutLess(all: set<Constraint>, lost: Constraint?)
    ensures Without(all, lost) <= all
  {
  }

  /** A new variable, made equal to the last one. */
  method Extend(p: Planner, last: Variable, ghost vs: seq<Variable>, ghost es: seq<Constraint>, ghost pos: map<Variable, int>)
    returns (v: Variable, ghost e: Constraint)
    requires Built(p, vs, es, pos) && p.cons == FlowGraph(p.cons).Keys == Elems(es) && |vs| > 0 && last == vs[|vs| - 1]
    modifies p`vars, p`currentMark, p`cons, p.cons`direction, p.cons`satisfied, p.vars
    ensures fresh(p.vars - old(p.vars)) && fresh(p.cons - old(p.cons))
    ensures Built(p, vs + [v], es + [e], pos[v := |vs|]) && p.cons == FlowGraph(p.cons).Keys == Elems(es + [e])
  {
    hide *;
    BuiltParts(p, vs, es, pos);
    ghost var vars, cons := p.vars, p.cons;
    v := NewVariable(p);
    var c, ok;
    ghost var lost;
    c, ok, lost := NewConstraint(p, Equality, last, v, REQUIRED, pos[v := |vs|]);
    e := c;
    ChainMore(vars, cons, vs, es, pos, v, e);
    ChainLine(p.vars, p.cons, vs + [v], es + [e], pos[v := |vs|]);
    ElemsMore(es, e);
    NoneLost(Snap(p.vars, p.cons), es + [e], Elems(es) + {e}, lost, p.currentMark);
    WithoutLess(Elems(es) + {e}, lost);
    IsBuilt(p, vs + [v], es + [e], pos[v := |vs|]);
  }

  method BuildChain(n: nat)
    returns (p: Planner, first: Variable, last: Variable, ghost vs: seq<Variable>, ghost es: seq<Constraint>, ghost pos: map<Variable, int>)
    ensures fresh(p) && fresh(p.vars) && fresh(p.cons) && Built(p, vs, es, pos)
    ensures |vs| == n + 1 && first == vs[0] && last == vs[n] && p.cons == FlowGraph(p.cons).Keys == Elems(es)
  {
    hide *;
    p := new Planner();
    EmptyReady(p);
    first := NewVariable(p);
    last := first;
    vs, es, pos := [first], [], map[first := 0];
    ChainStart(p, first);
    for i := 0 to n
      invariant fresh(p) && fresh(p.vars) && fresh(p.cons) && Built(p, vs, es, pos) && |vs| == i + 1
      invariant first == vs[0] && last == vs[i] && p.cons == FlowGraph(p.cons).Keys == Elems(es)
    {
      var v;
      ghost var e;
      v, e := Extend(p, last, vs, es, pos);
      vs, es, pos := vs + [v], es + [e], pos[v := |vs|];
      last := v;
    }
  }

  lemma ChainOther(vars: set<Variable>, cons: set<Constraint>, vs: seq<Variable>, es: seq<Constraint>, pos: map<Variable, int>, c: Constraint)
    requires Chain(vars, cons, vs, es, pos) && !c.kind.Equality?
    ensures Chain(vars, cons + {c}, vs, es, pos)
  {
  }

  /** A stay constraint on the last variable. */
  method AddStay(p: Planner, last: Variable, ghost vs: seq<Variable>, ghost es: seq<Constraint>, ghost pos: map<Variable, int>)
    returns (ghost stay: Constraint)
    requires Built(p, vs, es, pos) && p.cons == FlowGraph(p.cons).Keys == Elems(es) && |vs| > 0 && last == vs[|vs| - 1]
    modifies p`currentMark, p`cons, p.cons`direction, p.cons`satisfied, p.vars
    ensures fresh(p.cons - old(p.cons)) && Built(p, vs, es, pos) && stay in FlowGraph(p.cons)
    ensures stay.kind.Stay? && stay.strength == STRONG_DEFAULT && stay.v1 == last
  {
    hide *;
    BuiltParts(p, vs, es, pos);
    ghost var cons := p.cons;
    IsReady(p);
    AllWeakest(p.vars, p.cons, vs, es, pos, |vs| - 1);
    var c, ok;
    ghost var lost;
    c, ok, lost := NewConstraint(p, Stay, last, last, STRONG_DEFAULT, pos);
    stay := c;
    ChainOther(p.vars, cons, vs, es, pos, stay);
    ChainLine(p.vars, p.cons, vs, es, pos);
    NoneLost(Snap(p.vars, p.cons), es, Elems(es) + {stay}, lost, p.currentMark);
    StrengthOrder();
    NotLost(Elems(es) + {stay}, lost, stay);
    IsBuilt(p, vs, es, pos);
  }

  lemma NotLost(all: set<Constraint>, lost: Constraint?, c: Constraint)
    requires c in all && lost != c
    ensures c in Without(all, lost)
  {
  }

  lemma StrengthOrder()
    ensures PREFERRED < STRONG_DEFAULT < WEAKEST
  {
  }

  /** The stay constraint gives its strength to the whole chain. */
  lemma StayWalk(p: Planner, vs: seq<Variable>, es: seq<Constraint>, pos: map<Variable, int>, stay: Constraint)
    requires Built(p, vs, es, pos) && stay in FlowGraph(p.cons) && stay.kind.Stay? && |vs| > 0 && stay.v1 == vs[|vs| - 1]
    ensures vs[0].walkStrength == stay.strength
  {
    hide Chain, Sound, Flow, FlowGraph;
    BuiltParts(p, vs, es, pos);
    SnapStrengths(p.vars, p.cons);
    SnapParts(p.vars, p.cons, stay) by { InGraph(p.vars, p.cons, stay); }
    var s := Snap(p.vars, p.cons);
    SameWalk(s, p.vars, p.cons, vs, es, pos, |vs| - 1);
    assert s.walk[s.g[stay].output] == stay.strength;
    assert s.walk[vs[0]] == vs[0].walkStrength;
  }

  /** An edit constraint on the first variable is stronger than the stay constraint. */
  method AddEdit(p: Planner, first: Variable, ghost vs: seq<Variable>, ghost es: seq<Constraint>, ghost pos: map<Variable, int>, ghost stay: Constraint)
    returns (edit: Constraint)
    requires Built(p, vs, es, pos) && |vs| > 0 && first == vs[0]
    requires stay in FlowGraph(p.cons) && stay.kind.Stay? && stay.strength == STRONG_DEFAULT && stay.v1 == vs[|vs| - 1]
    modifies p`currentMark, p`cons, p.cons`direction, p.cons`satisfied, p.vars
    ensures fresh(p.cons - old(p.cons)) && Built(p, vs, es, pos) && edit in FlowGraph(p.cons) && edit.kind.Edit? && edit.v1 == first
    ensures stay !in FlowGraph(p.cons)
  {
    hide *;
    BuiltParts(p, vs, es, pos);
    StayWalk(p, vs, es, pos, stay);
    ghost var cons, keys := p.cons, FlowGraph(p.cons).Keys;
    var ok;
    ghost var lost;
    edit, ok, lost := NewConstraint(p, Edit, first, first, PREFERRED, pos);
    ChainOther(p.vars, cons, vs, es, pos, edit);
    ChainLine(p.vars, p.cons, vs, es, pos);
    NoneLost(Snap(p.vars, p.cons), es, keys + {edit}, lost, p.currentMark);
    StrengthOrder();
    NotLost(keys + {edit}, lost, edit);
    IsBuilt(p, vs, es, pos);
    OnlyOneEnd(p, vs, es, pos, edit, stay);
  }

  lemma NotBoth(g: Graph, c: Constraint, d: Constraint)
    requires OneEach(g) && c in g && c != d && (d in g ==> g[d].output == g[c].output)
    ensures d !in g
  {
  }

  lemma LastFlows(g: Graph, vs: seq<Variable>, es: seq<Constraint>)
    requires |es| > 0 && |vs| == |es| + 1 && FlowsOn(g, vs, es, |es| - 1)
    ensures es[|es| - 1] in g && g[es[|es| - 1]].output == vs[|vs| - 1]
  {
  }

  lemma UnaryOutput(vars: set<Variable>, cons: set<Constraint>, c: Constraint)
    requires Sound(vars, cons) && !c.kind.Equality?
    ensures c in FlowGraph(cons) ==> FlowGraph(cons)[c].output == c.v1 && !FlowGraph(cons)[c].equality
  {
    if c in FlowGraph(cons) {
      InGraph(vars, cons, c);
      SnapParts(vars, cons, c);
    }
  }

  /** With all equalities satisfied there is no room for constraints at both ends. */
  lemma OnlyOneEnd(p: Planner, vs: seq<Variable>, es: seq<Constraint>, pos: map<Variable, int>, edit: Constraint, stay: Constraint)
    requires Built(p, vs, es, pos) && edit in FlowGraph(p.cons) && edit.kind.Edit? && |vs| > 0 && edit.v1 == vs[0]
    requires stay.kind.Stay? && stay.v1 == vs[|vs| - 1]
    ensures stay !in FlowGraph(p.cons)
  {
    hide *;
    var g := FlowGraph(p.cons);
    BuiltParts(p, vs, es, pos);
    IsReady(p);
    UnaryOutput(p.vars, p.cons, edit);
    UnaryOutput(p.vars, p.cons, stay);
    InGraph(p.vars, p.cons, edit);
    SnapParts(p.vars, p.cons, edit);
    SoundIs(p.vars, p.cons);
    DeterminedOneEach(Dets(p.vars), g);
    ElemsIn(es, g);
    if |es| > 0 {
      AllForward(g, p.vars, p.cons, vs, es, pos, edit, |es| - 1);
      LastFlows(g, vs, es);
      NotBoth(g, es[|es| - 1], stay);
    } else {
      NotBoth(g, edit, stay);
    }
  }

  /** The plan for the edit constraint has the whole chain. */
  lemma ChainPlan(p: Planner, vs: seq<Variable>, es: seq<Constraint>, pos: map<Variable, int>, edit: Constraint, plan: seq<Constraint>)
    requires Built(p, vs, es, pos) && edit in FlowGraph(p.cons) && edit.kind.Edit? && |vs| > 0 && edit.v1 == vs[0]
    requires Trace(FlowGraph(p.cons), plan, {edit}) && Covered(FlowGraph(p.cons), plan, [], {edit})
    ensures Plan(FlowGraph(p.cons), plan, {edit}) && HoldOutside(FlowGraph(p.cons), plan, Values(p.vars))
    ensures |vs| == |es| + 1 && forall i :: 0 <= i < |es| ==> es[i] in plan && FlowsOn(FlowGraph(p.cons), vs, es, i)
  {
    hide *;
    var g := FlowGraph(p.cons);
    BuiltParts(p, vs, es, pos);
    IsReady(p);
    InGraph(p.vars, p.cons, edit);
    SnapParts(p.vars, p.cons, edit);
    SoundIs(p.vars, p.cons);
    DeterminedOneEach(Dets(p.vars), g);
    EndsIn(p.vars, p.cons);
    ElemsIn(es, g);
    forall c | c in g && g[c].equality ensures c in plan {
      PlannedToo(g, p.vars, p.cons, vs, es, pos, edit, plan, c);
    }
    forall i | 0 <= i < |es| ensures es[i] in plan && FlowsOn(g, vs, es, i) {
      AllForward(g, p.vars, p.cons, vs, es, pos, edit, i);
      AllPlanned(g, p.vars, p.cons, vs, es, pos, edit, plan, i);
    }
    IsPlan(g, plan, edit, Values(p.vars));
  }

  lemma ElemsIn(es: seq<Constraint>, g: Graph)
    requires Elems(es) <= g.Keys
    ensures forall e :: e in es ==> e in g
  {
  }

  lemma PlannedToo(
    g: Graph, vars: set<Variable>, cons: set<Constraint>, vs: seq<Variable>, es: seq<Constraint>, pos: map<Variable, int>, edit: Constraint,
    plan: seq<Constraint>, c: Constraint
  )
    requires Chain(vars, cons, vs, es, pos) && OneEach(g) && EdgesOf(g, cons) && (forall e :: e in es ==> e in g)
    requires edit in g && !g[edit].equality && g[edit].output == vs[0] && Covered(g, plan, [], {edit}) && c in g && g[c].equality
    ensures c in plan
  {
    assert c in es;
    var i :| 0 <= i < |es| && es[i] == c;
    AllPlanned(g, vars, cons, vs, es, pos, edit, plan, i);
  }

  lemma IsPlan(g: Graph, plan: seq<Constraint>, edit: Constraint, val: map<Variable, int>)
    requires Trace(g, plan, {edit}) && Covered(g, plan, [], {edit}) && edit in g && edit.kind.Edit? && !g[edit].equality
    requires Ends(g, val.Keys) && forall c :: c in g && g[c].equality ==> c in plan
    ensures Plan(g, plan, {edit}) && HoldOutside(g, plan, val)
  {
  }

  lemma EndsIn(vars: set<Variable>, cons: set<Constraint>)
    requires Sound(vars, cons)
    ensures Ends(FlowGraph(cons), vars) && Values(vars).Keys == vars
  {
  }

  /** Build the chain, let the last variable stay, edit the first one: each value written to the first arrives at the last. */
  method ChainTest(n: nat, inputs: seq<int>) returns (outputs: seq<int>)
    ensures outputs == inputs
  {
    hide *;
    var p, first, last, vs, es, pos := BuildChain(n);
    ghost var stay := AddStay(p, last, vs, es, pos);
    var edit := AddEdit(p, first, vs, es, pos, stay);
    BuiltParts(p, vs, es, pos);
    IsReady(p);
    InGraph(p.vars, p.cons, edit);
    var plan;
    ghost var src;
    plan, src := p.ExtractPlanFromConstraints([edit]);
    OnlyEdit(edit, src);
    IsReady(p);
    IsBuilt(p, vs, es, pos);
    ChainPlan(p, vs, es, pos, edit, plan);
    outputs := RunEdits(p, plan, first, last, inputs, vs, es, pos, src, edit);
  }

  /** Write each value to the first variable, execute the plan and read the last variable. */
  method RunEdits(
    p: Planner, plan: seq<Constraint>, first: Variable, last: Variable, inputs: seq<int>,
    ghost vs: seq<Variable>, ghost es: seq<Constraint>, ghost pos: map<Variable, int>, ghost src: set<Constraint>, ghost edit: Constraint
  )
    returns (outputs: seq<int>)
    requires Built(p, vs, es, pos) && Plan(FlowGraph(p.cons), plan, src) && HoldOutside(FlowGraph(p.cons), plan, Values(p.vars))
    requires |vs| > 0 && first == vs[0] == edit.v1 && last == vs[|vs| - 1] && edit in src
    modifies p.vars`value
    ensures outputs == inputs
  {
    hide *;
    outputs := [];
    for i := 0 to |inputs|
      invariant Built(p, vs, es, pos) && Plan(FlowGraph(p.cons), plan, src) && HoldOutside(FlowGraph(p.cons), plan, Values(p.vars))
      invariant outputs == inputs[..i]
    {
      BuiltParts(p, vs, es, pos);
      Update(p, plan, first, inputs[i], src, edit);
      IsBuilt(p, vs, es, pos);
      ChainValue(p, vs, es, pos, plan);
      outputs := outputs + [last.value];
    }
  }

  lemma OnlyEdit(edit: Constraint, src: set<Constraint>)
    requires src == (set c | c in [edit] && c.IsInput() && c.IsSatisfied()) && edit.kind.Edit? && edit.IsSatisfied()
    ensures src == {edit}
  {
  }

  lemma ChainValue(p: Planner, vs: seq<Variable>, es: seq<Constraint>, pos: map<Variable, int>, plan: seq<Constraint>)
    requires Built(p, vs, es, pos) && AllHold(FlowGraph(p.cons), Values(p.vars)) && |vs| > 0
    ensures vs[|vs| - 1].value == vs[0].value && HoldOutside(FlowGraph(p.cons), plan, Values(p.vars))
  {
    SnapStrengths(p.vars, p.cons);
    SameValue(FlowGraph(p.cons), Values(p.vars), p.vars, p.cons, vs, es, pos, |vs| - 1);
  }
}
