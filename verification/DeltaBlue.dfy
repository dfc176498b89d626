/** The constraint planner of the DeltaBlue benchmark, for stay, edit and equality constraints. */
module DeltaBlue {

  /** A strength by its value: the smaller, the stronger. */
  type Strength = n: nat | n <= 6

  const REQUIRED: Strength := 0
  const PREFERRED: Strength := 2
  const STRONG_DEFAULT: Strength := 3
  const WEAKEST: Strength := 6

  function WeakestOf(s1: Strength, s2: Strength): Strength {
    if s1 > s2 then s1 else s2
  }

  datatype Kind = Stay | Edit | Equality

  datatype Direction = NoFlow | Forward | Backward

  class Variable {
    var value: int
    var constraints: seq<Constraint>
    var determinedBy: Constraint?
    var mark: nat
    var walkStrength: Strength
    var stay: bool

    constructor ()
      ensures value == 0 && constraints == [] && determinedBy == null && mark == 0 && walkStrength == WEAKEST && stay
    {
      value, constraints, determinedBy, mark, walkStrength, stay := 0, [], null, 0, WEAKEST, true;
    }
  }

  /** A stay or edit constraint has its only variable as `v1` and as `v2`. */
  class Constraint {
    const kind: Kind
    const strength: Strength
    const v1: Variable
    const v2: Variable
    var satisfied: bool
    var direction: Direction

    constructor (kind: Kind, v1: Variable, v2: Variable, strength: Strength)
      ensures this.kind == kind && this.v1 == v1 && this.v2 == v2 && this.strength == strength
      ensures !satisfied && direction == NoFlow
    {
      this.kind, this.v1, this.v2, this.strength := kind, v1, v2, strength;
      satisfied, direction := false, NoFlow;
    }

    predicate IsInput() {
      kind.Edit?
    }

    predicate IsSatisfied()
      reads this
    {
      if kind.Equality? then direction != NoFlow else satisfied
    }

    function Input(): Variable
      reads this
    {
      if direction == Forward then v1 else v2
    }

    function Output(): Variable
      reads this
    {
      if direction == Forward then v2 else v1
    }

    method MarkUnsatisfied()
      modifies this`direction, this`satisfied
      ensures !IsSatisfied() && (kind.Equality? ==> satisfied == old(satisfied)) && (!kind.Equality? ==> direction == old(direction))
    {
      if kind.Equality? {
        direction := NoFlow;
      } else {
        satisfied := false;
      }
    }

    /** A stay or edit constraint wants an unmarked variable of weaker strength. An equality flows into
        the weaker side, and into the second one if both are alike, whatever the marks say. */
    predicate Picks(marked: bool, w1: Strength, w2: Strength)
      reads this
    {
      if kind.Equality? then
        (direction == Forward <==> w1 <= w2 && strength < w2) && (direction == NoFlow <==> w2 < w1 && w1 <= strength)
      else satisfied <==> !marked && strength < w1
    }

    /** Stronger than neither side, and both sides alike: the equality flows backward, into a marked variable. */
    static method TakesMarked() returns (c: Constraint)
      ensures fresh(c) && c.kind.Equality? && c.v1.mark == 1 && c.v1.walkStrength == c.v2.walkStrength == REQUIRED
      ensures c.strength == PREFERRED && c.direction == Backward
    {
      var v1 := new Variable();
      var v2 := new Variable();
      v1.mark, v1.walkStrength, v2.walkStrength := 1, REQUIRED, REQUIRED;
      c := new Constraint(Equality, v1, v2, PREFERRED);
      c.ChooseMethod(1);
    }

    method ChooseMethod(mark: nat)
      requires !IsSatisfied()
      modifies this`direction, this`satisfied
      ensures kind.Equality? ==> satisfied == old(satisfied)
      ensures !kind.Equality? ==> direction == old(direction)
      ensures Picks(v1.mark == mark, v1.walkStrength, v2.walkStrength)
    {
      if !kind.Equality? {
        satisfied := v1.mark != mark && strength < v1.walkStrength;
        return;
      }
      if v1.mark == mark {
        direction := if v2.mark != mark && strength < v2.walkStrength then Forward else NoFlow;
      }
      if v2.mark == mark {
        direction := if v1.mark != mark && strength < v1.walkStrength then Backward else NoFlow;
      }
      if v1.walkStrength > v2.walkStrength {
        direction := if strength < v1.walkStrength then Backward else NoFlow;
      } else {
        direction := if strength < v2.walkStrength then Forward else Backward;
      }
    }

    method Execute()
      modifies Output()`value
      ensures kind.Equality? ==> Output().value == old(Input().value)
      ensures !kind.Equality? ==> Output().value == old(Output().value)
    {
      if kind.Equality? {
        Output().value := Input().value;
      }
    }

    method Recalculate()
      modifies Output()`walkStrength, Output()`stay, Output()`value
      ensures FlowAt(this, EdgeOf(this))
      ensures !kind.Equality? || !Output().stay ==> Output().value == old(Output().value)
    {
      var out := Output();
      if kind.Equality? {
        out.walkStrength := WeakestOf(strength, Input().walkStrength);
        out.stay := Input().stay;
      } else {
        out.walkStrength := strength;
        out.stay := !IsInput();
      }
      if out.stay {
        Execute();
      }
    }

    predicate InputsKnown(mark: nat)
      reads this, v1, v2
    {
      kind.Equality? ==> Input().mark == mark || Input().stay || Input().determinedBy == null
    }
  }

  // ----- the flow of values through the satisfied constraints

  /** Which variable a satisfied constraint computes, and from which one if it is an equality. */
  datatype Edge = Edge(equality: bool, input: Variable, output: Variable)

  type Graph = map<Constraint, Edge>

  ghost function EdgeOf(c: Constraint): Edge
    reads c
  {
    Edge(c.kind.Equality?, c.Input(), c.Output())
  }

  ghost function FlowGraph(cons: set<Constraint>): Graph
    reads cons
  {
    map c | c in cons && c.IsSatisfied() :: EdgeOf(c)
  }

  /** The output has the strength and the stay flag that the constraint gives it, and if nothing can change it, the value. */
  ghost predicate FlowAt(c: Constraint, e: Edge)
    reads e.input`walkStrength, e.input`stay, e.input`value, e.output`walkStrength, e.output`stay, e.output`value
  {
    if e.equality then
      e.output.walkStrength == WeakestOf(c.strength, e.input.walkStrength) && e.output.stay == e.input.stay &&
      (e.output.stay ==> e.output.value == e.input.value)
    else
      e.output.walkStrength == c.strength && e.output.stay == !c.IsInput()
  }

  /** Strengths and stay flags are up to date, but for the constraints of `but`. */
  ghost predicate Current(vars: set<Variable>, g: Graph, but: set<Constraint>)
    reads vars`walkStrength, vars`stay, vars`value
  {
    forall c :: c in g && c !in but ==> g[c].input in vars && g[c].output in vars && FlowAt(c, g[c])
  }

  /** A variable that no constraint determines has the weakest strength and stays. */
  ghost predicate Loose(vars: set<Variable>, det: map<Variable, Constraint?>)
    reads vars`walkStrength, vars`stay
  {
    forall v :: v in vars && v in det && det[v] == null ==> v.walkStrength == WEAKEST && v.stay
  }

  ghost predicate Flow(vars: set<Variable>, g: Graph, but: set<Constraint>)
    reads vars`determinedBy, vars`walkStrength, vars`stay, vars`value
  {
    Current(vars, g, but) && Loose(vars, Dets(vars))
  }

  ghost function Lists(vars: set<Variable>): map<Variable, seq<Constraint>>
    reads vars`constraints
  {
    map v | v in vars :: v.constraints
  }

  /** Constraints and variables know each other. */
  ghost predicate Wired(lists: map<Variable, seq<Constraint>>, cons: set<Constraint>) {
    (forall c :: c in cons ==> c.v1 in lists && c.v2 in lists && c in lists[c.v1] && c in lists[c.v2]) &&
    (forall c :: c in cons && !c.kind.Equality? ==> c.v1 == c.v2) &&
    (forall v :: v in lists ==> Listed(v, lists[v], cons))
  }

  ghost predicate Listed(v: Variable, cs: seq<Constraint>, cons: set<Constraint>) {
    (forall c :: c in cs ==> c in cons && (c.v1 == v || c.v2 == v)) &&
    (forall i, j :: 0 <= i < j < |cs| && cs[i] == cs[j] ==> cs[i].v1 == cs[i].v2)
  }

  ghost function Dets(vars: set<Variable>): map<Variable, Constraint?>
    reads vars`determinedBy
  {
    map v | v in vars :: v.determinedBy
  }

  /** The determining constraint of a variable is the satisfied one that has it as output. */
  ghost predicate Determined(det: map<Variable, Constraint?>, g: Graph) {
    (forall v :: v in det && det[v] != null ==> det[v] in g && g[det[v]].output == v) &&
    (forall c :: c in g ==> g[c].output in det && g[c].input in det && det[g[c].output] == c)
  }

  ghost predicate Sound(vars: set<Variable>, cons: set<Constraint>)
    reads vars`constraints, vars`determinedBy, cons
  {
    Wired(Lists(vars), cons) && Determined(Dets(vars), FlowGraph(cons))
  }

  /** The graph `g` after `c` has taken over its output from `overridden`. */
  ghost predicate Taken(g: Graph, c: Constraint, e: Edge, overridden: Constraint?, g': Graph) {
    if overridden == null then g' == g[c := e] && forall d :: d in g ==> g[d].output != e.output
    else overridden in g && g[overridden].output == e.output && g' == (g - {overridden})[c := e]
  }

  // ----- following the flow

  /** The equality `e` takes its input from the output of `d`. */
  ghost predicate Feeds(g: Graph, d: Constraint, e: Constraint) {
    d in g && e in g && e != d && g[e].equality && g[e].input == g[d].output
  }

  ghost predicate OneEach(g: Graph) {
    forall c, d :: c in g && d in g && g[c].output == g[d].output ==> c == d
  }

  /** Constraints in the order of the flow: each one is a source or takes its input from an earlier one. */
  ghost predicate Trace(g: Graph, ds: seq<Constraint>, sources: set<Constraint>) {
    (forall i :: 0 <= i < |ds| ==> ds[i] in g && Reached(g, ds, i, ds[i], sources)) &&
    (forall i, j :: 0 <= i < j < |ds| ==> ds[i] != ds[j])
  }

  ghost predicate Reached(g: Graph, ds: seq<Constraint>, n: nat, d: Constraint, sources: set<Constraint>)
    requires n <= |ds|
  {
    d in sources || exists i :: 0 <= i < n && Feeds(g, ds[i], d)
  }

  ghost predicate Waiting(g: Graph, ds: seq<Constraint>, todo: seq<Constraint>, sources: set<Constraint>) {
    forall t :: t in todo ==> t in g && Reached(g, ds, |ds|, t, sources)
  }

  /** Every source and every constraint that `ds` feeds is done or waiting. */
  ghost predicate Covered(g: Graph, ds: seq<Constraint>, todo: seq<Constraint>, sources: set<Constraint>) {
    (forall s :: s in sources ==> s in ds || s in todo) &&
    (forall i, e :: 0 <= i < |ds| && e in g && Feeds(g, ds[i], e) ==> e in ds || e in todo)
  }

  ghost predicate Following(g: Graph, ds: seq<Constraint>, todo: seq<Constraint>, sources: set<Constraint>) {
    Trace(g, ds, sources) && Waiting(g, ds, todo, sources) && Covered(g, ds, todo, sources)
  }

  /** The constraints that `d` feeds. */
  ghost predicate IsNext(g: Graph, d: Constraint, next: seq<Constraint>) {
    (forall e :: e in next ==> Feeds(g, d, e)) && forall e :: e in g && Feeds(g, d, e) ==> e in next
  }

  /** A waiting constraint is done, and those that it feeds wait. */
  lemma FollowOne(g: Graph, ds: seq<Constraint>, todo: seq<Constraint>, d: Constraint, next: seq<Constraint>, sources: set<Constraint>)
    requires Following(g, ds, todo + [d], sources) && d !in ds && IsNext(g, d, next)
    ensures Following(g, ds + [d], todo + next, sources)
  {
    var ds' := ds + [d];
    FollowLast(g, ds, todo, d, sources);
    forall t | t in todo + next ensures t in g && Reached(g, ds', |ds'|, t, sources) {
      if t in todo {
        assert t in todo + [d];
        ReachedMore(g, ds, |ds|, t, [d], |ds'|, sources);
      } else {
        assert Feeds(g, ds'[|ds|], t);
      }
    }
    forall s | s in sources ensures s in ds' || s in todo + next { assert s in ds || s in todo + [d]; }
    forall i, e | 0 <= i < |ds'| && e in g && Feeds(g, ds'[i], e) ensures e in ds' || e in todo + next {
      if i < |ds| { assert Feeds(g, ds[i], e); }
    }
  }

  lemma FollowLast(g: Graph, ds: seq<Constraint>, todo: seq<Constraint>, d: Constraint, sources: set<Constraint>)
    requires Following(g, ds, todo + [d], sources) && d !in ds
    ensures Trace(g, ds + [d], sources)
  {
    var ds' := ds + [d];
    assert d in todo + [d];
    forall i | 0 <= i < |ds'| ensures ds'[i] in g && Reached(g, ds', i, ds'[i], sources) {
      assert Reached(g, ds, i, ds'[i], sources);
      ReachedMore(g, ds, i, ds'[i], [d], i, sources);
    }
  }

  lemma FollowStart(g: Graph, c: Constraint)
    requires c in g
    ensures Following(g, [], [c], {c}) && Fresh([], [c])
  {
  }

  lemma FollowEnd(g: Graph, ds: seq<Constraint>, c: Constraint)
    requires Following(g, ds, [], {c})
    ensures Trace(g, ds, {c}) && Covered(g, ds, [], {c}) && c in ds
  {
  }

  lemma TraceFirst(g: Graph, ds: seq<Constraint>, c: Constraint)
    requires Trace(g, ds, {c}) && ds != []
    ensures ds[0] == c
  {
    assert Reached(g, ds, 0, ds[0], {c});
  }

  lemma ReachedMore(g: Graph, ds: seq<Constraint>, n: nat, d: Constraint, more: seq<Constraint>, n': nat, sources: set<Constraint>)
    requires n <= |ds| && n <= n' <= |ds + more| && Reached(g, ds, n, d, sources)
    ensures Reached(g, ds + more, n', d, sources)
  {
    if d !in sources {
      var i :| 0 <= i < n && Feeds(g, ds[i], d);
      assert Feeds(g, (ds + more)[i], d);
    }
  }

  /** A constraint that is already done has nothing left to do. */
  lemma FollowNone(g: Graph, ds: seq<Constraint>, todo: seq<Constraint>, d: Constraint, sources: set<Constraint>)
    requires Following(g, ds, todo + [d], sources) && d in ds
    ensures Following(g, ds, todo, sources)
  {
    forall t | t in todo ensures t in g && Reached(g, ds, |ds|, t, sources) { assert t in todo + [d]; }
    forall s | s in sources ensures s in ds || s in todo { assert s in ds || s in todo + [d]; }
    forall i, e | 0 <= i < |ds| && e in g && Feeds(g, ds[i], e) ensures e in ds || e in todo { assert e in ds || e in todo + [d]; }
  }

  ghost predicate Fresh(ds: seq<Constraint>, todo: seq<Constraint>) {
    (forall i, j :: 0 <= i < j < |todo| ==> todo[i] != todo[j]) && forall t :: t in todo ==> t !in ds
  }

  /** What a constraint feeds was not met before, unless it feeds the source. */
  lemma FollowFresh(g: Graph, ds: seq<Constraint>, todo: seq<Constraint>, d: Constraint, next: seq<Constraint>, c: Constraint)
    requires OneEach(g) && Following(g, ds, todo + [d], {c}) && Fresh(ds, todo + [d]) && !Feeds(g, d, c)
    requires IsNext(g, d, next) && forall i, j :: 0 <= i < j < |next| ==> next[i] != next[j]
    ensures Fresh(ds + [d], todo + next)
  {
    assert d in todo + [d];
    forall t | t in todo ensures t !in ds && t != d && t !in next {
      var k :| 0 <= k < |todo| && todo[k] == t;
      assert (todo + [d])[k] == t && (todo + [d])[|todo|] == d;
      if Feeds(g, d, t) { NotFedBefore(g, ds, d, t, c); }
    }
    forall t | t in next ensures t !in ds && t != d {
      if i :| 0 <= i < |ds| && ds[i] == t {
        ReachedMore(g, ds, i, t, [], |ds|, {c});
        assert ds + [] == ds;
        NotFedBefore(g, ds, d, t, c);
      }
    }
    var all := todo + next;
    forall i, j | 0 <= i < j < |all| ensures all[i] != all[j] {
      if j < |todo| {
        assert (todo + [d])[i] != (todo + [d])[j];
      } else if i >= |todo| {
        assert next[i - |todo|] != next[j - |todo|];
      } else {
        assert all[i] in todo && all[j] in next;
      }
    }
  }

  lemma NotFedBefore(g: Graph, ds: seq<Constraint>, d: Constraint, t: Constraint, c: Constraint)
    requires OneEach(g) && Reached(g, ds, |ds|, t, {c}) && d !in ds && !Feeds(g, d, c)
    ensures !Feeds(g, d, t)
  {
  }

  lemma DeterminedOneEach(det: map<Variable, Constraint?>, g: Graph)
    requires Determined(det, g)
    ensures OneEach(g)
  {
  }

  ghost predicate NoRepeat(cs: seq<Constraint>) {
    forall i, j :: 0 <= i < j < |cs| ==> cs[i] != cs[j]
  }

  /** A satisfied constraint of a variable that does not determine it takes its input from it. */
  lemma Consumer(vars: set<Variable>, cons: set<Constraint>, d: Constraint, e: Constraint)
    requires Sound(vars, cons) && d in FlowGraph(cons) && e in cons
    ensures e in d.Output().constraints && e != d && e.IsSatisfied() <==> Feeds(FlowGraph(cons), d, e)
    ensures Feeds(FlowGraph(cons), d, e) ==> e.v1 != e.v2
  {
    var g := FlowGraph(cons);
    assert g[d].output == d.Output() && d.Output().determinedBy == d;
    if e.IsSatisfied() { assert e in g && g[e].output == e.Output(); }
    assert Listed(d.Output(), d.Output().constraints, cons);
  }

  lemma ListOf(vars: set<Variable>, cons: set<Constraint>, v: Variable)
    requires Sound(vars, cons) && v in vars
    ensures Listed(v, v.constraints, cons)
  {
    assert Lists(vars)[v] == v.constraints;
  }

  lemma WiredEnds(vars: set<Variable>, cons: set<Constraint>, c: Constraint)
    requires Wired(Lists(vars), cons) && c in cons
    ensures c.v1 in vars && c.v2 in vars && (!c.kind.Equality? ==> c.v1 == c.v2)
  {
  }

  lemma DeterminedAt(det: map<Variable, Constraint?>, g: Graph, v: Variable)
    requires Determined(det, g) && v in det
    ensures if det[v] == null then forall d :: d in g ==> g[d].output != v else det[v] in g && g[det[v]].output == v
  {
  }

  lemma DeterminedTaken(det: map<Variable, Constraint?>, g: Graph, c: Constraint, e: Edge, g': Graph)
    requires Determined(det, g) && c !in g && e.output in det && e.input in det && Taken(g, c, e, det[e.output], g')
    ensures Determined(det[e.output := c], g')
  {
  }

  lemma LooseTaken(vars: set<Variable>, det: map<Variable, Constraint?>, v: Variable, c: Constraint)
    requires Loose(vars, det)
    ensures Loose(vars, det[v := c])
  {
  }

  lemma TakenIn(g: Graph, c: Constraint, e: Edge, overridden: Constraint?, g': Graph)
    requires Taken(g, c, e, overridden, g')
    ensures c in g' && g'[c] == e
  {
  }

  lemma SoundParts(vars: set<Variable>, cons: set<Constraint>, c: Constraint)
    requires Sound(vars, cons) && c in cons
    ensures Wired(Lists(vars), cons) && Determined(Dets(vars), FlowGraph(cons)) && c.v1 in vars && c.v2 in vars
    ensures c in FlowGraph(cons) <==> c.IsSatisfied()
  {
  }

  lemma OutputEnd(c: Constraint)
    ensures c.Output() == c.v1 || c.Output() == c.v2
    ensures EdgeOf(c).output == c.Output() && (EdgeOf(c).input == c.v1 || EdgeOf(c).input == c.v2)
  {
  }

  lemma SoundSame(vars: set<Variable>, cons: set<Constraint>, g: Graph)
    requires Wired(Lists(vars), cons) && Determined(Dets(vars), g) && g == FlowGraph(cons)
    ensures Sound(vars, cons)
  {
  }

  lemma DetsAt(vars: set<Variable>, v: Variable)
    requires v in vars
    ensures v in Dets(vars) && Dets(vars)[v] == v.determinedBy && Dets(vars).Keys == vars
  {
  }

  lemma FlowParts(vars: set<Variable>, g: Graph)
    requires Flow(vars, g, {})
    ensures Current(vars, g, {}) && Loose(vars, Dets(vars))
  {
  }

  lemma InCons(cons: set<Constraint>, c: Constraint)
    requires c in FlowGraph(cons)
    ensures c in cons
  {
  }

  /** The graph with the edge of `c`, without the constraint that determined the output before. */
  lemma GraphTaken(g: Graph, c: Constraint, e: Edge, overridden: Constraint?)
    requires c !in g && if overridden == null then forall d :: d in g ==> g[d].output != e.output else overridden in g && g[overridden].output == e.output
    ensures Taken(g, c, e, overridden, if overridden == null then g[c := e] else g[c := e] - {overridden})
    ensures overridden != null ==> overridden != c && overridden in g[c := e]
  {
    if overridden != null { assert g[c := e] - {overridden} == (g - {overridden})[c := e]; }
  }

  /** What holds once the determiner of the output is replaced. */
  lemma SoundTaken(vars: set<Variable>, cons: set<Constraint>, det: map<Variable, Constraint?>, g: Graph, c: Constraint, e: Edge)
    requires det.Keys == vars && e.output in vars && e.input in vars && c !in g && Determined(det, g) && Wired(Lists(vars), cons)
    requires Taken(g, c, e, det[e.output], FlowGraph(cons)) && Dets(vars) == det[e.output := c]
    requires Current(vars, g, {}) && Loose(vars, det)
    ensures Sound(vars, cons) && Flow(vars, FlowGraph(cons), {c})
  {
    hide *;
    CurrentTaken(vars, g, c, e, det[e.output], FlowGraph(cons));
    DeterminedTaken(det, g, c, e, FlowGraph(cons));
    LooseTaken(vars, det, e.output, c);
    SoundFlow(vars, cons, c);
  }

  lemma SoundFlow(vars: set<Variable>, cons: set<Constraint>, c: Constraint)
    requires Wired(Lists(vars), cons) && Determined(Dets(vars), FlowGraph(cons)) && Current(vars, FlowGraph(cons), {c}) && Loose(vars, Dets(vars))
    ensures Sound(vars, cons) && Flow(vars, FlowGraph(cons), {c})
  {
  }

  lemma CurrentTaken(vars: set<Variable>, g: Graph, c: Constraint, e: Edge, overridden: Constraint?, g': Graph)
    requires Current(vars, g, {}) && Taken(g, c, e, overridden, g')
    ensures Current(vars, g', {c})
  {
  }

  ghost function Elems(cs: seq<Constraint>): set<Constraint> {
    set c | c in cs
  }

  ghost function Outs(g: Graph, ds: seq<Constraint>): set<Variable> {
    set d | d in ds && d in g :: g[d].output
  }

  lemma OutsOne(g: Graph, ds: seq<Constraint>, d: Constraint)
    requires d in g
    ensures Outs(g, ds + [d]) == Outs(g, ds) + {g[d].output} && Elems(ds + [d]) == Elems(ds) + {d}
  {
  }

  lemma OutsNone(g: Graph)
    ensures Outs(g, []) == {}
  {
  }

  lemma InGraph(vars: set<Variable>, cons: set<Constraint>, d: Constraint)
    requires Sound(vars, cons) && d in FlowGraph(cons)
    ensures d.Output() in vars && d.Input() in vars && d.Output().determinedBy == d
    ensures d in cons && d.IsSatisfied() && FlowGraph(cons)[d] == EdgeOf(d) && EdgeOf(d).output == d.Output()
  {
    assert FlowGraph(cons)[d].output in vars;
  }

  lemma FlowMore(vars: set<Variable>, g: Graph, but: set<Constraint>, more: set<Constraint>)
    requires Flow(vars, g, but) && but <= more
    ensures Flow(vars, g, more)
  {
  }

  lemma SplitLast(cs: seq<Constraint>)
    requires cs != []
    ensures cs == cs[..|cs| - 1] + [cs[|cs| - 1]]
  {
  }

  lemma NoRepeatNone()
    ensures NoRepeat([])
  {
  }

  lemma NoRepeatMore(cs: seq<Constraint>, c: Constraint)
    requires NoRepeat(cs)
    ensures c !in cs ==> NoRepeat(cs + [c])
  {
  }

  lemma InFlow(g: Graph, ds: seq<Constraint>, todo: seq<Constraint>, sources: set<Constraint>, d: Constraint)
    requires Following(g, ds, todo, sources) && d in todo
    ensures d in g
  {
  }

  lemma FreshNew(ds: seq<Constraint>, todo: seq<Constraint>, d: Constraint)
    requires Fresh(ds, todo + [d])
    ensures d !in ds
  {
    assert d in todo + [d];
  }

  // ----- a line of variables

  ghost predicate Joins(c: Constraint, x: Variable, y: Variable) {
    c.kind.Equality? && ((c.v1 == x && c.v2 == y) || (c.v1 == y && c.v2 == x))
  }

  /** The variables stand on a line, and required equalities join neighbours, one at most for two of them. */
  ghost predicate Line(vars: set<Variable>, cons: set<Constraint>, pos: map<Variable, int>) {
    pos.Keys == vars && (forall u, v :: u in vars && v in vars && pos[u] == pos[v] ==> u == v) &&
    (forall c :: c in cons && c.kind.Equality? ==>
      c.strength == REQUIRED && c.v1 in vars && c.v2 in vars && (pos[c.v1] - pos[c.v2] == 1 || pos[c.v2] - pos[c.v1] == 1)) &&
    (forall c, d :: c in cons && d in cons && c.kind.Equality? && Joins(d, c.v1, c.v2) ==> c == d)
  }

  /** `v` is on the same side of `s` as `t`. */
  ghost predicate Beyond(pos: map<Variable, int>, s: Variable, t: Variable, v: Variable)
    requires s in pos && t in pos && v in pos
  {
    if pos[s] < pos[t] then pos[s] < pos[v] else pos[v] < pos[s]
  }

  ghost predicate EdgesOf(g: Graph, cons: set<Constraint>) {
    forall c :: c in g ==>
      c in cons && g[c].equality == c.kind.Equality? && if g[c].equality then Joins(c, g[c].input, g[c].output) else g[c].output == c.v1
  }

  /** The flow from `s` does not pass to its neighbour `t` when no other constraint joins them. */
  lemma {:induction false} TraceSide(
    vars: set<Variable>, cons: set<Constraint>, pos: map<Variable, int>, g: Graph, ds: seq<Constraint>, c: Constraint, t: Variable, j: nat
  )
    requires Line(vars, cons, pos) && EdgesOf(g, cons) && Trace(g, ds, {c}) && c in g && j < |ds|
    requires g[c].output in vars && t in vars && g[c].output != t && forall e :: e in g && Joins(e, g[c].output, t) ==> e == c
    requires pos[g[c].output] - pos[t] == 1 || pos[t] - pos[g[c].output] == 1
    ensures g[ds[j]].output in vars && !Beyond(pos, g[c].output, t, g[ds[j]].output)
    decreases j
  {
    assert Reached(g, ds, j, ds[j], {c});
    if ds[j] != c {
      var i :| 0 <= i < j && Feeds(g, ds[i], ds[j]);
      TraceSide(vars, cons, pos, g, ds, c, t, i);
    }
  }

  // ----- the constraints overridden one after the other

  /** The flow graph with the strengths and marks of all variables. */
  datatype Snapshot = Snapshot(g: Graph, walk: map<Variable, Strength>, mark: map<Variable, nat>)

  ghost function Walks(vars: set<Variable>): map<Variable, Strength>
    reads vars`walkStrength
  {
    map v | v in vars :: v.walkStrength
  }

  ghost function Marks(vars: set<Variable>): map<Variable, nat>
    reads vars`mark
  {
    map v | v in vars :: v.mark
  }

  ghost predicate WalksKept(walk: map<Variable, Strength>, walk': map<Variable, Strength>, outs: set<Variable>) {
    walk'.Keys == walk.Keys && forall v :: v in walk && v !in outs ==> walk'[v] == walk[v]
  }

  /** The input of an equality and the output get the mark. */
  ghost predicate MarksSet(marks: map<Variable, nat>, marks': map<Variable, nat>, e: Edge, mark: nat) {
    marks'.Keys == marks.Keys &&
    forall v :: v in marks ==> marks'[v] == if v == e.output || (e.equality && v == e.input) then mark else marks[v]
  }

  ghost predicate Clear(marks: map<Variable, nat>, outs: set<Variable>, e: Edge, mark: nat) {
    forall v :: v in marks && v in outs ==> marks[v] != mark && !(e.equality && v == e.input)
  }

  ghost predicate Strengths(s: Snapshot, vars: set<Variable>) {
    s.walk.Keys == vars && s.mark.Keys == vars &&
    forall c :: c in s.g ==>
      s.g[c].input in vars && s.g[c].output in vars &&
      s.walk[s.g[c].output] == if s.g[c].equality then WeakestOf(c.strength, s.walk[s.g[c].input]) else c.strength
  }

  ghost predicate NoneMarked(s: Snapshot, vars: set<Variable>, mark: nat)
    requires Strengths(s, vars)
  {
    forall v :: v in vars ==> s.mark[v] != mark
  }

  /** The next constraint to satisfy. An equality joins the marked part of the line with the rest,
      at `x` and `y`, and the marked part is the stronger one. */
  ghost predicate Wave(s: Snapshot, vars: set<Variable>, pos: map<Variable, int>, mark: nat, next: Constraint, x: Variable, y: Variable)
    requires Strengths(s, vars) && pos.Keys == vars
  {
    if next.kind.Equality? then
      x in vars && y in vars && Joins(next, x, y) &&
      (forall v :: v in vars && Beyond(pos, x, y, v) ==> s.mark[v] != mark) &&
      (s.walk[x] < s.walk[y] || (x == next.v1 && s.walk[x] <= s.walk[y] && 0 < s.walk[y] && forall d :: d in s.g ==> s.g[d].output != y))
    else next.v1 in vars && (s.mark[next.v1] == mark || NoneMarked(s, vars, mark))
  }

  /** The edge that a constraint picks which is not too weak: an equality flows into the weaker side, and into
      the second one if both are alike. */
  ghost predicate PicksEdge(s: Snapshot, c: Constraint, e: Edge) {
    c.v1 in s.walk && c.v2 in s.walk &&
    if c.kind.Equality? then
      e == if s.walk[c.v1] <= s.walk[c.v2] && c.strength < s.walk[c.v2] then Edge(true, c.v1, c.v2) else Edge(true, c.v2, c.v1)
    else e == Edge(false, c.v1, c.v1)
  }

  /** The output that is picked is at least as strong as the constraint only for an equality, and exactly when
      its first side is no weaker than its second and that one no weaker than the equality. */
  lemma PicksStronger(s: Snapshot, c: Constraint, e: Edge, mark: nat)
    requires PicksEdge(s, c, e) && !TooWeak(s, c, mark) && c.v1 in s.mark
    ensures s.walk[e.output] <= c.strength <==> c.kind.Equality? && s.walk[c.v1] <= s.walk[c.v2] <= c.strength
  {
  }

  /** What `Satisfy` did to the graph, the strengths and the marks. */
  ghost predicate Satisfied(s: Snapshot, s': Snapshot, vars: set<Variable>, mark: nat, c: Constraint, e: Edge, overridden: Constraint?, ds: seq<Constraint>)
    requires Strengths(s, vars) && s'.walk.Keys == vars && s'.mark.Keys == vars
  {
    c !in s.g && Taken(s.g, c, e, overridden, s'.g) && Trace(s'.g, ds, {c}) && c in ds &&
    WalksKept(s.walk, s'.walk, Outs(s'.g, ds)) && MarksSet(s.mark, s'.mark, e, mark)
  }

  /** No variable of the flow from `s` is on the side of `t`. */
  lemma OutsSide(vars: set<Variable>, cons: set<Constraint>, pos: map<Variable, int>, g: Graph, ds: seq<Constraint>, c: Constraint, t: Variable)
    requires Line(vars, cons, pos) && EdgesOf(g, cons) && Trace(g, ds, {c}) && c in g
    requires g[c].output in vars && t in vars && g[c].output != t && forall e :: e in g && Joins(e, g[c].output, t) ==> e == c
    requires pos[g[c].output] - pos[t] == 1 || pos[t] - pos[g[c].output] == 1
    ensures forall v :: v in vars && v in Outs(g, ds) ==> !Beyond(pos, g[c].output, t, v)
  {
    forall v | v in vars && v in Outs(g, ds) ensures !Beyond(pos, g[c].output, t, v) {
      var d :| d in ds && d in g && g[d].output == v;
      var j :| 0 <= j < |ds| && ds[j] == d;
      TraceSide(vars, cons, pos, g, ds, c, t, j);
    }
  }

  lemma Neighbours(vars: set<Variable>, cons: set<Constraint>, pos: map<Variable, int>, c: Constraint, x: Variable, y: Variable)
    requires Line(vars, cons, pos) && c in cons && Joins(c, x, y)
    ensures pos.Keys == vars && x in vars && y in vars && x != y && (pos[x] - pos[y] == 1 || pos[y] - pos[x] == 1) && c.strength == REQUIRED
    ensures forall d :: d in cons && (Joins(d, x, y) || Joins(d, y, x)) ==> d == c
  {
  }

  lemma OnePlace(vars: set<Variable>, cons: set<Constraint>, pos: map<Variable, int>, u: Variable, v: Variable)
    requires Line(vars, cons, pos) && u in vars && v in vars && u != v
    ensures pos[u] != pos[v]
  {
  }

  /** No marked variable is met, so no cycle is reported. */
  lemma WaveClear(
    s: Snapshot, g: Graph, vars: set<Variable>, cons: set<Constraint>, pos: map<Variable, int>, mark: nat,
    next: Constraint, e: Edge, overridden: Constraint?, ds: seq<Constraint>
  )
    requires Strengths(s, vars) && Line(vars, cons, pos) && EdgesOf(g, cons) && next in cons
    requires Taken(s.g, next, e, overridden, g) && Trace(g, ds, {next}) && e.output in vars && e.equality == next.kind.Equality?
    requires Wave(s, vars, pos, mark, next, e.input, e.output) && (!e.equality ==> s.mark[next.v1] != mark)
    ensures Clear(s.mark, Outs(g, ds), e, mark)
  {
    hide Line, Trace, Outs;
    if e.equality {
      Neighbours(vars, cons, pos, next, e.input, e.output);
      OutsSide(vars, cons, pos, g, ds, next, e.input);
    }
  }

  lemma EdgesTaken(s: Snapshot, vars: set<Variable>, cons: set<Constraint>, c: Constraint, e: Edge, overridden: Constraint?, g: Graph)
    requires EdgesOf(s.g, cons) && c in cons && PicksEdge(s, c, e) && Taken(s.g, c, e, overridden, g) && s.walk.Keys == vars
    ensures EdgesOf(g, cons) && e.output in vars && e.input in vars && e.equality == c.kind.Equality? && (!e.equality ==> e.output == c.v1)
    ensures overridden != null ==> overridden in s.g
  {
  }

  lemma ClearOwn(s: Snapshot, g: Graph, c: Constraint, e: Edge, overridden: Constraint?, ds: seq<Constraint>, mark: nat)
    requires Taken(s.g, c, e, overridden, g) && c in ds && e.output in s.mark
    ensures Clear(s.mark, Outs(g, ds), e, mark) ==> e.output in Unmarked(s.mark, mark)
  {
    assert g[c] == e && e.output in Outs(g, ds);
  }

  /** The overridden equality leads away from the output, to a variable that keeps its strength. */
  lemma WaveOn(
    s: Snapshot, s': Snapshot, vars: set<Variable>, cons: set<Constraint>, pos: map<Variable, int>, mark: nat,
    next: Constraint, e: Edge, o: Constraint, ds: seq<Constraint>
  )
    requires Strengths(s, vars) && Strengths(s', vars) && Line(vars, cons, pos) && EdgesOf(s.g, cons) && EdgesOf(s'.g, cons)
    requires Satisfied(s, s', vars, mark, next, e, o, ds) && e.output in vars
    requires s.g[o].equality
    ensures var y, z := e.output, s.g[o].input;
      s'.walk[z] == s.walk[z] == s.walk[y] && Joins(o, y, z) && z in vars && pos.Keys == vars && pos[y] != pos[z] &&
      (pos[y] - pos[z] == 1 || pos[z] - pos[y] == 1) && o in cons
  {
    hide Line, Trace, Outs, MarksSet;
    var y, z := e.output, s.g[o].input;
    Neighbours(vars, cons, pos, o, y, z);
    OutsSide(vars, cons, pos, s'.g, ds, next, z);
  }

  /** The constraint that an equality overrides continues the wave. */
  lemma WaveNext(
    s: Snapshot, s': Snapshot, vars: set<Variable>, cons: set<Constraint>, pos: map<Variable, int>, mark: nat,
    next: Constraint, e: Edge, o: Constraint, ds: seq<Constraint>
  )
    requires Strengths(s, vars) && Strengths(s', vars) && Line(vars, cons, pos) && EdgesOf(s.g, cons) && EdgesOf(s'.g, cons)
    requires Satisfied(s, s', vars, mark, next, e, o, ds) && e.output in vars
    requires e.equality && next.kind.Equality? && Wave(s, vars, pos, mark, next, e.input, e.output)
    ensures Wave(s', vars, pos, mark, o, e.output, s.g[o].input)
  {
    hide Line, Trace, Outs;
    if s.g[o].equality {
      var y, z := e.output, s.g[o].input;
      WaveOn(s, s', vars, cons, pos, mark, next, e, o, ds);
      Neighbours(vars, cons, pos, next, e.input, y);
      OutsSide(vars, cons, pos, s'.g, ds, next, e.input);
      OnePlace(vars, cons, pos, e.input, z);
      assert s'.walk[e.input] == s.walk[e.input];
      StillAhead(s.mark, s'.mark, vars, pos, mark, e, z);
    }
  }

  /** The constraint that a stay or edit constraint overrides begins the wave. */
  lemma WaveFirst(
    s: Snapshot, s': Snapshot, vars: set<Variable>, cons: set<Constraint>, pos: map<Variable, int>, mark: nat,
    next: Constraint, e: Edge, o: Constraint, ds: seq<Constraint>
  )
    requires Strengths(s, vars) && Strengths(s', vars) && Line(vars, cons, pos) && EdgesOf(s.g, cons) && EdgesOf(s'.g, cons)
    requires Satisfied(s, s', vars, mark, next, e, o, ds) && e.output in vars
    requires !e.equality && !next.kind.Equality? && NoneMarked(s, vars, mark) && next.strength < s.walk[e.output]
    ensures Wave(s', vars, pos, mark, o, e.output, s.g[o].input)
  {
    hide Line, Trace, Outs;
    if s.g[o].equality {
      WaveOn(s, s', vars, cons, pos, mark, next, e, o, ds);
    }
  }

  /** The side of `z` is unmarked still, when `z` is the next neighbour of the output. */
  lemma StillAhead(marks: map<Variable, nat>, marks': map<Variable, nat>, vars: set<Variable>, pos: map<Variable, int>, mark: nat, e: Edge, z: Variable)
    requires marks.Keys == vars && pos.Keys == vars && e.input in vars && e.output in vars && z in vars && MarksSet(marks, marks', e, mark)
    requires pos[e.input] - pos[e.output] == 1 || pos[e.output] - pos[e.input] == 1
    requires pos[z] - pos[e.output] == 1 || pos[e.output] - pos[z] == 1
    requires pos[z] != pos[e.input] && forall v :: v in vars && Beyond(pos, e.input, e.output, v) ==> marks[v] != mark
    ensures forall v :: v in vars && Beyond(pos, e.output, z, v) ==> marks'[v] != mark
  {
    forall v | v in vars && Beyond(pos, e.output, z, v) ensures marks'[v] != mark {
      assert Beyond(pos, e.input, e.output, v);
    }
  }

  ghost function Snap(vars: set<Variable>, cons: set<Constraint>): Snapshot
    reads vars`walkStrength, vars`mark, cons
  {
    Snapshot(FlowGraph(cons), Walks(vars), Marks(vars))
  }

  /** The variables stand on a line, and `next` continues the wave on it. */
  ghost predicate Rolls(vars: set<Variable>, cons: set<Constraint>, pos: map<Variable, int>, mark: nat, next: Constraint, x: Variable, y: Variable)
    reads vars`walkStrength, vars`mark, cons
  {
    Line(vars, cons, pos) && Strengths(Snap(vars, cons), vars) && Wave(Snap(vars, cons), vars, pos, mark, next, x, y)
  }

  lemma RollsIs(vars: set<Variable>, cons: set<Constraint>, pos: map<Variable, int>, mark: nat, next: Constraint, x: Variable, y: Variable)
    requires Strengths(Snap(vars, cons), vars)
    ensures Line(vars, cons, pos) ==> pos.Keys == vars
    ensures Rolls(vars, cons, pos, mark, next, x, y) <==> Line(vars, cons, pos) && Wave(Snap(vars, cons), vars, pos, mark, next, x, y)
  {
  }

  lemma SnapStrengths(vars: set<Variable>, cons: set<Constraint>)
    requires Sound(vars, cons)
    ensures EdgesOf(FlowGraph(cons), cons) && (Flow(vars, FlowGraph(cons), {}) ==> Strengths(Snap(vars, cons), vars))
  {
  }

  lemma SnapParts(vars: set<Variable>, cons: set<Constraint>, c: Constraint)
    requires Sound(vars, cons) && c in cons
    ensures Snap(vars, cons) == Snapshot(FlowGraph(cons), Walks(vars), Marks(vars))
    ensures Walks(vars).Keys == vars && Marks(vars).Keys == vars && EdgesOf(FlowGraph(cons), cons)
    ensures Flow(vars, FlowGraph(cons), {}) ==> Strengths(Snap(vars, cons), vars)
    ensures c.v1 in vars && c.v2 in vars && (c in FlowGraph(cons) <==> c.IsSatisfied())
    ensures Walks(vars)[c.v1] == c.v1.walkStrength && Walks(vars)[c.v2] == c.v2.walkStrength && Marks(vars)[c.v1] == c.v1.mark
    ensures EdgeOf(c).output in vars && EdgeOf(c).input in vars && EdgeOf(c).equality == c.kind.Equality?
    ensures EdgeOf(c).output == c.Output() && (!c.kind.Equality? ==> EdgeOf(c).output == c.v1 == c.v2)
  {
    SnapStrengths(vars, cons);
  }

  /** What the choice of a method means. */
  lemma PicksMeans(s: Snapshot, c: Constraint, mark: nat)
    requires c.v1 in s.walk && c.v2 in s.walk && c.v1 in s.mark && (!c.kind.Equality? ==> c.v1 == c.v2)
    requires c.Picks(s.mark[c.v1] == mark, s.walk[c.v1], s.walk[c.v2])
    ensures c.IsSatisfied() <==> !TooWeak(s, c, mark)
    ensures c.IsSatisfied() ==> PicksEdge(s, c, EdgeOf(c))
  {
  }

  lemma IsStep(s: Snapshot, s': Snapshot, vars: set<Variable>, mark: nat, c: Constraint, e: Edge, overridden: Constraint?, ds: seq<Constraint>)
    requires Strengths(s, vars) && s'.walk.Keys == vars && s'.mark.Keys == vars
    requires c !in s.g && Taken(s.g, c, e, overridden, s'.g) && Trace(s'.g, ds, {c}) && c in ds
    requires WalksKept(s.walk, s'.walk, Outs(s'.g, ds)) && MarksSet(s.mark, s'.mark, e, mark)
    ensures Satisfied(s, s', vars, mark, c, e, overridden, ds)
  {
  }

  /** The edge that the constraint of a wave picks. */
  lemma WaveEdge(
    s: Snapshot, vars: set<Variable>, cons: set<Constraint>, pos: map<Variable, int>, mark: nat, next: Constraint, x: Variable, y: Variable, e: Edge
  )
    requires Strengths(s, vars) && Line(vars, cons, pos) && Wave(s, vars, pos, mark, next, x, y) && next in cons
    requires PicksEdge(s, next, e) && !TooWeak(s, next, mark) && next.v1 in s.mark
    ensures Wave(s, vars, pos, mark, next, e.input, e.output)
    ensures !next.kind.Equality? ==> NoneMarked(s, vars, mark) && s.mark[next.v1] != mark && next.strength < s.walk[next.v1]
  {
  }

  ghost function Unmarked(marks: map<Variable, nat>, mark: nat): set<Variable> {
    set v | v in marks && marks[v] != mark
  }

  /** Marking makes fewer variables unmarked. */
  lemma MarksLess(marks: map<Variable, nat>, marks': map<Variable, nat>, e: Edge, mark: nat)
    requires MarksSet(marks, marks', e, mark) && e.output in marks && marks[e.output] != mark
    ensures Unmarked(marks', mark) < Unmarked(marks, mark)
  {
    assert e.output in Unmarked(marks, mark) && e.output !in Unmarked(marks', mark);
  }

  ghost function Without(cs: set<Constraint>, lost: Constraint?): set<Constraint> {
    if lost == null then cs else cs - {lost}
  }

  lemma AllBut(cs: set<Constraint>, c: Constraint)
    requires c !in cs
    ensures Without(cs + {c}, c) == cs
  {
  }

  lemma KeysStep(all: set<Constraint>, g: Graph, cons: set<Constraint>, n: Constraint, e: Edge, next: Constraint?, g': Graph)
    requires g.Keys == Without(all, n) && n in all && Taken(g, n, e, next, g') && EdgesOf(g, cons)
    ensures g'.Keys == Without(all, next) && (next != null ==> next in all && next in cons && next !in g')
  {
  }

  /** The constraint is satisfied, and its output is marked, so that it will not be overridden. */
  ghost predicate Settled(g: Graph, marks: map<Variable, nat>, c: Constraint, mark: nat) {
    c in g && g[c].output in marks && marks[g[c].output] == mark
  }

  lemma MarksStep(
    g: Graph, m: map<Variable, nat>, m': map<Variable, nat>, n: Constraint, e: Edge, next: Constraint?, g': Graph, c: Constraint, mark: nat
  )
    requires Taken(g, n, e, next, g') && MarksSet(m, m', e, mark) && n !in g && e.output in Unmarked(m, mark)
    ensures MarksUpTo(m, mark) ==> MarksUpTo(m', mark)
    ensures Unmarked(m', mark) < Unmarked(m, mark)
    ensures (n == c || Settled(g, m, c, mark)) ==> Settled(g', m', c, mark) && next != c
  {
    MarksLess(m, m', e, mark);
  }

  /** All of `all` are satisfied but for the one to satisfy next, or the one that was too weak.
      When `c` is strong enough, it is the next one or it is satisfied for good. */
  ghost predicate Adding(
    s: Snapshot, cons: set<Constraint>, all: set<Constraint>, next: Constraint?, lost: Constraint?, mark: nat, c: Constraint, strong: bool
  ) {
    MarksUpTo(s.mark, mark) &&
    (next != null ==> next in all && next in cons && next !in s.g && lost == null && s.g.Keys == Without(all, next)) &&
    (next == null ==> s.g.Keys == Without(all, lost)) &&
    (lost != null ==> TooWeak(s, lost, mark)) &&
    (strong ==> if next == c then !TooWeak(s, c, mark) else Settled(s.g, s.mark, c, mark) && lost != c)
  }

  lemma AddingStart(s: Snapshot, cons: set<Constraint>, mark: nat, c: Constraint)
    requires MarksUpTo(s.mark, mark) && c in cons && c !in s.g && c.v1 in s.mark && c.v1 in s.walk && s.mark[c.v1] != mark
    ensures Adding(s, cons, s.g.Keys + {c}, c, null, mark, c, !c.kind.Equality? && c.strength < s.walk[c.v1])
  {
    AllBut(s.g.Keys, c);
  }

  lemma AddingStep(
    s: Snapshot, s': Snapshot, cons: set<Constraint>, all: set<Constraint>, n: Constraint, e: Edge, next: Constraint?, mark: nat, c: Constraint, strong: bool
  )
    requires Adding(s, cons, all, n, null, mark, c, strong) && EdgesOf(s.g, cons)
    requires Taken(s.g, n, e, next, s'.g) && MarksSet(s.mark, s'.mark, e, mark) && e.output in Unmarked(s.mark, mark)
    ensures Adding(s', cons, all, next, null, mark, c, strong) && Unmarked(s'.mark, mark) < Unmarked(s.mark, mark)
  {
    hide Taken, MarksSet, Unmarked, Settled, MarksUpTo, EdgesOf, TooWeak;
    KeysStep(all, s.g, cons, n, e, next, s'.g);
    MarksStep(s.g, s.mark, s'.mark, n, e, next, s'.g, c, mark);
  }

  lemma AddingNext(
    vars: set<Variable>, cons: set<Constraint>, all: set<Constraint>, next: Constraint, lost: Constraint?, mark: nat, c: Constraint, strong: bool
  )
    requires Sound(vars, cons) && Adding(Snap(vars, cons), cons, all, next, lost, mark, c, strong)
    ensures next in cons && !next.IsSatisfied() && lost == null
  {
  }

  lemma AddingLast(s: Snapshot, cons: set<Constraint>, all: set<Constraint>, lost: Constraint?, mark: nat, c: Constraint, strong: bool)
    requires Adding(s, cons, all, null, lost, mark, c, strong)
    ensures MarksUpTo(s.mark, mark) && s.g.Keys == Without(all, lost) && (lost != null ==> TooWeak(s, lost, mark)) && (strong ==> lost != c)
  {
  }

  lemma AddingEnd(s: Snapshot, cons: set<Constraint>, all: set<Constraint>, n: Constraint, mark: nat, c: Constraint, strong: bool)
    requires Adding(s, cons, all, n, null, mark, c, strong) && TooWeak(s, n, mark)
    ensures Adding(s, cons, all, null, n, mark, c, strong)
  {
  }

  /** Nothing will be overridden but from the ends: a stay or edit constraint, or an equality to an undetermined variable. */
  ghost predicate Starts(c: Constraint)
    reads c.v2`determinedBy
  {
    c.kind.Equality? ==> c.v2.determinedBy == null
  }

  lemma WaveStart(vars: set<Variable>, cons: set<Constraint>, pos: map<Variable, int>, mark: nat, c: Constraint)
    requires Sound(vars, cons) && Flow(vars, FlowGraph(cons), {}) && c in cons && forall v :: v in vars ==> v.mark != mark
    requires Line(vars, cons, pos) && Starts(c)
    ensures Rolls(vars, cons, pos, mark, c, c.v1, c.v2)
  {
    SnapStrengths(vars, cons);
  }

  /** The constraint cannot be enforced: it is not stronger than what it would replace. */
  ghost predicate TooWeak(s: Snapshot, c: Constraint, mark: nat) {
    c.v1 in s.walk && c.v2 in s.walk && c.v1 in s.mark &&
    if c.kind.Equality? then s.walk[c.v2] < s.walk[c.v1] <= c.strength else s.mark[c.v1] == mark || s.walk[c.v1] <= c.strength
  }

  ghost predicate MarksUpTo(marks: map<Variable, nat>, mark: nat) {
    forall v :: v in marks ==> marks[v] <= mark
  }

  // ----- plans

  /** The marked variables are the outputs of the planned constraints. */
  ghost predicate MarkedOuts(marks: map<Variable, nat>, g: Graph, plan: seq<Constraint>, mark: nat) {
    (forall v :: v in marks ==> (marks[v] == mark <==> v in Outs(g, plan))) && MarksUpTo(marks, mark)
  }

  lemma PlanStart(g: Graph, vars: set<Variable>, cons: set<Constraint>, sources: seq<Constraint>, mark: nat)
    requires g == FlowGraph(cons) && (forall v :: v in vars ==> v.mark != mark) && MarksUpTo(Marks(vars), mark)
    requires forall s :: s in sources ==> s in g && !s.kind.Equality?
    ensures forall s :: s in Elems(sources) ==> !s.kind.Equality?
    ensures Following(g, [], sources, Elems(sources)) && MarkedOuts(Marks(vars), g, [], mark)
  {
  }

  lemma PlanNew(vars: set<Variable>, g: Graph, plan: seq<Constraint>, c: Constraint, mark: nat)
    requires MarkedOuts(Marks(vars), g, plan, mark) && c in g && g[c].output in vars && g[c].output.mark != mark
    ensures c !in plan && c !in Elems(plan)
  {
    assert Marks(vars)[g[c].output] != mark;
  }

  lemma MarkOne(m: map<Variable, nat>, g: Graph, plan: seq<Constraint>, c: Constraint, mark: nat)
    requires MarkedOuts(m, g, plan, mark) && c in g
    ensures MarkedOuts(m[g[c].output := mark], g, plan + [c], mark)
  {
    OutsOne(g, plan, c);
  }

  /** A waiting constraint that is passed over is in the plan already. */
  lemma PlanOld(vars: set<Variable>, cons: set<Constraint>, plan: seq<Constraint>, todo: seq<Constraint>, c: Constraint, mark: nat, src: set<Constraint>)
    requires Sound(vars, cons) && Following(FlowGraph(cons), plan, todo + [c], src) && MarkedOuts(Marks(vars), FlowGraph(cons), plan, mark)
    requires c in FlowGraph(cons) && (forall s :: s in src ==> !s.kind.Equality?) && !(c.Output().mark != mark && c.InputsKnown(mark))
    ensures c in plan
  {
    var g := FlowGraph(cons);
    InGraph(vars, cons, c);
    assert c in todo + [c] && Reached(g, plan, |plan|, c, src);
    if c !in src {
      var i :| 0 <= i < |plan| && Feeds(g, plan[i], c);
      assert g[plan[i]].output in Outs(g, plan) && c.Input() == g[plan[i]].output;
      assert Marks(vars)[c.Input()] == mark;
    }
    assert Marks(vars)[c.Output()] == mark;
    var d :| d in plan && d in g && g[d].output == c.Output();
    DeterminedOneEach(Dets(vars), g);
  }

  /** Reached from a source over `k` equalities. */
  ghost predicate Downstream(g: Graph, src: set<Constraint>, c: Constraint, k: nat) {
    if k == 0 then c in src else exists d :: d in g && Downstream(g, src, d, k - 1) && Feeds(g, d, c)
  }

  /** A plan has exactly the constraints downstream of the sources. */
  lemma PlanIsDownstream(g: Graph, plan: seq<Constraint>, src: set<Constraint>, c: Constraint)
    requires Trace(g, plan, src) && Covered(g, plan, [], src) && forall s :: s in src ==> s in g
    ensures c in plan <==> exists k: nat :: Downstream(g, src, c, k)
  {
    if i :| 0 <= i < |plan| && plan[i] == c {
      var k := PlannedDownstream(g, plan, src, i);
      assert Downstream(g, src, c, k);
    }
    if k: nat :| Downstream(g, src, c, k) {
      DownstreamPlanned(g, plan, src, c, k);
      assert Downstream(g, src, c, k);
    }
  }

  lemma {:induction false} PlannedDownstream(g: Graph, plan: seq<Constraint>, src: set<Constraint>, i: nat) returns (k: nat)
    requires Trace(g, plan, src) && i < |plan|
    ensures Downstream(g, src, plan[i], k)
  {
    assert Reached(g, plan, i, plan[i], src);
    if plan[i] in src {
      k := 0;
    } else {
      var j :| 0 <= j < i && Feeds(g, plan[j], plan[i]);
      var k' := PlannedDownstream(g, plan, src, j);
      k := k' + 1;
    }
  }

  lemma {:induction false} DownstreamPlanned(g: Graph, plan: seq<Constraint>, src: set<Constraint>, c: Constraint, k: nat)
    requires Trace(g, plan, src) && Covered(g, plan, [], src) && Downstream(g, src, c, k)
    ensures c in plan
  {
    if k > 0 {
      var d :| d in g && Downstream(g, src, d, k - 1) && Feeds(g, d, c);
      DownstreamPlanned(g, plan, src, d, k - 1);
      var i :| 0 <= i < |plan| && plan[i] == d;
      assert c in g && Feeds(g, plan[i], c);
    }
  }

  // ----- the values that the wave changes

  ghost function Values(vars: set<Variable>): map<Variable, int>
    reads vars`value
  {
    map v | v in vars :: v.value
  }

  ghost function Stays(vars: set<Variable>): map<Variable, bool>
    reads vars`stay
  {
    map v | v in vars :: v.stay
  }

  /** The outputs of the equalities among `ds`. */
  ghost function Computed(g: Graph, ds: seq<Constraint>): set<Variable> {
    set c | c in ds && c in g && g[c].equality :: g[c].output
  }

  lemma ComputedOne(g: Graph, ds: seq<Constraint>, d: Constraint)
    requires d in g
    ensures Computed(g, ds + [d]) == Computed(g, ds) + if g[d].equality then {g[d].output} else {}
  {
    var more := Computed(g, ds) + if g[d].equality then {g[d].output} else {};
    forall v | v in more ensures v in Computed(g, ds + [d]) {
      if v in Computed(g, ds) {
        var c :| c in ds && c in g && g[c].equality && g[c].output == v;
        assert c in ds + [d];
      } else {
        assert d in ds + [d];
      }
    }
  }

  /** Only variables of `outs` that stay have a new value. */
  ghost predicate Moved(val: map<Variable, int>, val': map<Variable, int>, stay: map<Variable, bool>, outs: set<Variable>) {
    val'.Keys == val.Keys == stay.Keys && forall v :: v in val && val'[v] != val[v] ==> v in outs && stay[v]
  }

  ghost predicate StaysKept(stay: map<Variable, bool>, stay': map<Variable, bool>, outs: set<Variable>) {
    stay'.Keys == stay.Keys && forall v :: v in stay && v !in outs ==> stay'[v] == stay[v]
  }

  lemma NoneMoved(vars: set<Variable>, g: Graph)
    ensures Moved(Values(vars), Values(vars), Stays(vars), Computed(g, []))
    ensures WalksKept(Walks(vars), Walks(vars), Outs(g, [])) && StaysKept(Stays(vars), Stays(vars), Outs(g, []))
  {
  }

  lemma OutsNew(vars: set<Variable>, cons: set<Constraint>, ds: seq<Constraint>, d: Constraint)
    requires Sound(vars, cons) && d in FlowGraph(cons) && d !in ds
    ensures FlowGraph(cons)[d].output !in Outs(FlowGraph(cons), ds)
  {
    DeterminedOneEach(Dets(vars), FlowGraph(cons));
  }

  lemma InMaps(vars: set<Variable>, v: Variable)
    requires v in vars
    ensures v in Walks(vars) && v in Stays(vars) && v in Values(vars)
  {
  }

  lemma KeptOne(
    g: Graph, ds: seq<Constraint>, d: Constraint, walk: map<Variable, Strength>, walk': map<Variable, Strength>, w: Strength,
    stay: map<Variable, bool>, stay': map<Variable, bool>, s: bool
  )
    requires WalksKept(walk, walk', Outs(g, ds)) && StaysKept(stay, stay', Outs(g, ds)) && d in g && g[d].output in walk' && g[d].output in stay'
    ensures WalksKept(walk, walk'[g[d].output := w], Outs(g, ds + [d])) && StaysKept(stay, stay'[g[d].output := s], Outs(g, ds + [d]))
  {
    OutsOne(g, ds, d);
  }

  lemma MovedOne(
    g: Graph, ds: seq<Constraint>, d: Constraint, val: map<Variable, int>, val': map<Variable, int>, stay': map<Variable, bool>, value: int, stay: bool
  )
    requires Moved(val, val', stay', Computed(g, ds)) && d in g && g[d].output in val' && g[d].output !in Outs(g, ds)
    requires !g[d].equality || !stay ==> value == val'[g[d].output]
    ensures Moved(val, val'[g[d].output := value], stay'[g[d].output := stay], Computed(g, ds + [d]))
  {
    ComputedOne(g, ds, d);
    assert g[d].output !in Computed(g, ds);
  }

  /** The constraint `d` is reached from `c`. */
  ghost predicate Below(g: Graph, c: Constraint, d: Constraint) {
    exists k: nat :: Downstream(g, {c}, d, k)
  }

  /** The flow graph with the determiners, the marks, the stay flags and the values. */
  datatype Moment = Moment(g: Graph, det: map<Variable, Constraint?>, mark: map<Variable, nat>, stay: map<Variable, bool>, val: map<Variable, int>)

  ghost function Now(vars: set<Variable>, cons: set<Constraint>): Moment
    reads vars`determinedBy, vars`mark, vars`stay, vars`value, cons
  {
    Moment(FlowGraph(cons), Dets(vars), Marks(vars), Stays(vars), Values(vars))
  }

  ghost predicate Whole(m: Moment, vars: set<Variable>) {
    m.det.Keys == m.mark.Keys == m.stay.Keys == m.val.Keys == vars && Determined(m.det, m.g) &&
    forall c :: c in m.g && m.g[c].equality ==> m.stay[m.g[c].output] == m.stay[m.g[c].input]
  }

  /** A new value belongs to a variable that stays and that an equality determines which is reached from `c`. */
  ghost predicate Changed(m: Moment, vars: set<Variable>, c: Constraint, val: map<Variable, int>)
    requires Whole(m, vars) && val.Keys == vars
  {
    forall v :: v in vars && m.val[v] != val[v] ==> Rewritten(m, vars, c, v)
  }

  ghost predicate Rewritten(m: Moment, vars: set<Variable>, c: Constraint, v: Variable)
    requires Whole(m, vars) && v in vars
  {
    m.stay[v] && m.det[v] != null && m.g[m.det[v]].equality && Below(m.g, c, m.det[v])
  }

  /** What satisfying `n` did, when it was not too weak and no cycle was met. */
  ghost predicate Advance(m: Moment, m': Moment, mark: nat, n: Constraint, e: Edge, o: Constraint?, ds: seq<Constraint>) {
    n !in m.g && Taken(m.g, n, e, o, m'.g) && Trace(m'.g, ds, {n}) && Covered(m'.g, ds, [], {n}) && n in ds &&
    MarksSet(m.mark, m'.mark, e, mark) && Clear(m.mark, Outs(m'.g, ds), e, mark) &&
    StaysKept(m.stay, m'.stay, Outs(m'.g, ds)) && Moved(m.val, m'.val, m'.stay, Computed(m'.g, ds))
  }

  /** The wave stands at `at`, the output that the last constraint took from `n`. Unless it stays, no value has changed. */
  ghost predicate Stands(m: Moment, vars: set<Variable>, n: Constraint, c: Constraint, mark: nat, at: Variable, val: map<Variable, int>)
    requires Whole(m, vars)
  {
    at in vars && m.mark[at] == mark && (n.v1 == at || n.v2 == at) && (m.stay[at] || m.val == val) &&
    m.det[at] != null && Below(m.g, c, m.det[at])
  }

  /** All that the wave has changed by the time that `n` is next. */
  ghost predicate Changing(m: Moment, vars: set<Variable>, n: Constraint?, c: Constraint, mark: nat, at: Variable, val: map<Variable, int>) {
    Whole(m, vars) && val.Keys == vars && Changed(m, vars, c, val) && (m.val == val || Settled(m.g, m.mark, c, mark)) &&
    (n == c ==> m.val == val) && (n != null && n != c ==> Settled(m.g, m.mark, c, mark) && Stands(m, vars, n, c, mark, at, val))
  }

  /** All variables that the flow reaches from `n` have the stay flag of its output. */
  lemma {:induction false} TraceStay(m: Moment, vars: set<Variable>, ds: seq<Constraint>, n: Constraint, j: nat)
    requires Whole(m, vars) && Trace(m.g, ds, {n}) && n in m.g && j < |ds|
    ensures m.g[ds[j]].output in vars && m.stay[m.g[ds[j]].output] == m.stay[m.g[n].output]
    decreases j
  {
    assert Reached(m.g, ds, j, ds[j], {n});
    if ds[j] != n {
      var i :| 0 <= i < j && Feeds(m.g, ds[i], ds[j]);
      TraceStay(m, vars, ds, n, i);
    }
  }

  lemma OutStay(m: Moment, vars: set<Variable>, ds: seq<Constraint>, n: Constraint, v: Variable)
    requires Whole(m, vars) && Trace(m.g, ds, {n}) && n in m.g && v in Outs(m.g, ds)
    ensures v in vars && m.stay[v] == m.stay[m.g[n].output] && m.det[v] != null && m.det[v] in ds && (m.det[v] == n || m.g[m.det[v]].equality)
  {
    var d :| d in ds && d in m.g && m.g[d].output == v;
    var j :| 0 <= j < |ds| && ds[j] == d;
    TraceStay(m, vars, ds, n, j);
    assert Reached(m.g, ds, j, ds[j], {n});
  }

  lemma BelowSelf(g: Graph, c: Constraint)
    ensures Below(g, c, c)
  {
    assert Downstream(g, {c}, c, 0);
  }

  lemma BelowMore(g: Graph, c: Constraint, d: Constraint, e: Constraint)
    requires Below(g, c, d) && Feeds(g, d, e)
    ensures Below(g, c, e)
  {
    var k: nat :| Downstream(g, {c}, d, k);
    assert Downstream(g, {c}, e, k + 1);
  }

  lemma {:induction false} BelowJoin(g: Graph, c: Constraint, n: Constraint, d: Constraint, k: nat)
    requires Below(g, c, n) && Downstream(g, {n}, d, k)
    ensures Below(g, c, d)
  {
    if k > 0 {
      var d' :| d' in g && Downstream(g, {n}, d', k - 1) && Feeds(g, d', d);
      BelowJoin(g, c, n, d', k - 1);
      BelowMore(g, c, d', d);
    }
  }

  /** What is reached in a plan is below its source. */
  lemma BelowPlanned(g: Graph, ds: seq<Constraint>, c: Constraint, n: Constraint, d: Constraint)
    requires Trace(g, ds, {n}) && Below(g, c, n) && d in ds
    ensures Below(g, c, d)
  {
    var i :| 0 <= i < |ds| && ds[i] == d;
    var k := PlannedDownstream(g, ds, {n}, i);
    BelowJoin(g, c, n, d, k);
  }

  /** A way from `c` remains when `n` takes over from `o`, or it leads on from `n`. */
  lemma {:induction false} BelowKept(g: Graph, n: Constraint, e: Edge, o: Constraint?, g': Graph, c: Constraint, d: Constraint, k: nat)
    requires n !in g && Taken(g, n, e, o, g') && Downstream(g, {c}, d, k) && d != o && c != o
    ensures Below(g', c, d) || Below(g', n, d)
  {
    if k == 0 {
      BelowSelf(g', c);
    } else {
      var d' :| d' in g && Downstream(g, {c}, d', k - 1) && Feeds(g, d', d);
      if d' == o {
        BelowSelf(g', n);
        BelowMore(g', n, n, d);
      } else {
        BelowKept(g, n, e, o, g', c, d', k - 1);
        if Below(g', c, d') { BelowMore(g', c, d', d); } else { BelowMore(g', n, d', d); }
      }
    }
  }

  /** The constraint that is satisfied next has its input where the wave stands. */
  lemma NextInput(s: Snapshot, m: Moment, m': Moment, vars: set<Variable>, mark: nat, n: Constraint, e: Edge, o: Constraint?, ds: seq<Constraint>, c: Constraint, at: Variable, val: map<Variable, int>)
    requires Changing(m, vars, n, c, mark, at, val) && n != c && Advance(m, m', mark, n, e, o, ds)
    requires s.mark == m.mark && PicksEdge(s, n, e) && !TooWeak(s, n, mark) && n.v1 in s.mark && (!n.kind.Equality? ==> n.v1 == n.v2)
    ensures e.equality && e.input == at && e.output != at && at !in Outs(m'.g, ds) && e.output in Outs(m'.g, ds)
  {
    hide Changed, Trace, Covered, MarksSet, StaysKept, Moved, Below;
    assert m'.g[n] == e && at in m.mark;
  }

  /** In the step of an equality from where the wave stands, what is reached is still below `c`. */
  lemma StillBelow(m: Moment, m': Moment, vars: set<Variable>, mark: nat, n: Constraint, e: Edge, o: Constraint?, ds: seq<Constraint>, c: Constraint, at: Variable, d: Constraint)
    requires Whole(m, vars) && Whole(m', vars) && Advance(m, m', mark, n, e, o, ds) && at in vars && m.det[at] != null && Below(m.g, c, m.det[at])
    requires e.equality && e.input == at && e.output != at && at !in Outs(m'.g, ds) && c in m.g && c != o
    ensures Below(m'.g, c, n) && (Below(m.g, c, d) && d != o ==> Below(m'.g, c, d))
  {
    hide Below, Downstream, MarksSet, Clear, StaysKept, Moved, Outs, Trace, Covered;
    var g, g', d0 := m.g, m'.g, m.det[at];
    assert d0 != o && d0 in g' && g'[d0].output == at && g'[n] == e && Feeds(g', d0, n);
    BelowStep(g, n, e, o, g', c, d0);
    if Below(g', n, d0) {
      BelowInPlan(g', ds, n, d0);
      OutsAt(g', ds, d0);
      assert false;
    }
    BelowMore(g', c, d0, n);
    if Below(g, c, d) && d != o {
      BelowStep(g, n, e, o, g', c, d);
      if Below(g', n, d) { BelowThrough(g', c, n, d); }
    }
  }

  lemma BelowStep(g: Graph, n: Constraint, e: Edge, o: Constraint?, g': Graph, c: Constraint, d: Constraint)
    requires n !in g && Taken(g, n, e, o, g') && Below(g, c, d) && d != o && c != o
    ensures Below(g', c, d) || Below(g', n, d)
  {
    var k: nat :| Downstream(g, {c}, d, k);
    BelowKept(g, n, e, o, g', c, d, k);
  }

  lemma BelowThrough(g: Graph, c: Constraint, n: Constraint, d: Constraint)
    requires Below(g, c, n) && Below(g, n, d)
    ensures Below(g, c, d)
  {
    var k: nat :| Downstream(g, {n}, d, k);
    BelowJoin(g, c, n, d, k);
  }

  lemma BelowInPlan(g: Graph, ds: seq<Constraint>, n: Constraint, d: Constraint)
    requires Trace(g, ds, {n}) && Covered(g, ds, [], {n}) && Below(g, n, d)
    ensures d in ds
  {
    var k: nat :| Downstream(g, {n}, d, k);
    DownstreamPlanned(g, ds, {n}, d, k);
  }

  lemma OutsAt(g: Graph, ds: seq<Constraint>, d: Constraint)
    requires d in ds && d in g
    ensures g[d].output in Outs(g, ds)
  {
  }

  lemma ComputedOut(g: Graph, ds: seq<Constraint>, v: Variable)
    requires v in Computed(g, ds)
    ensures v in Outs(g, ds) && exists d :: d in ds && d in g && g[d].equality && g[d].output == v
  {
  }

  /** A variable outside the flow from `n` keeps its determiner, its stay flag and its value. */
  lemma OutsideKept(m: Moment, m': Moment, vars: set<Variable>, mark: nat, n: Constraint, e: Edge, o: Constraint?, ds: seq<Constraint>, v: Variable)
    requires Whole(m, vars) && Whole(m', vars) && Advance(m, m', mark, n, e, o, ds) && v in vars && v !in Outs(m'.g, ds)
    ensures m'.val[v] == m.val[v] && m'.stay[v] == m.stay[v]
    ensures m.det[v] != null ==> m.det[v] != o && m'.det[v] == m.det[v] && m'.g[m.det[v]] == m.g[m.det[v]]
  {
    hide Trace, Covered, MarksSet, Clear, Outs, Computed;
    assert m'.g[n] == e;
    OutsAt(m'.g, ds, n);
    if v in Computed(m'.g, ds) { ComputedOut(m'.g, ds, v); }
    if m.det[v] != null { DeterminerKept(m.det, m.g, m'.det, m'.g, n, e, o, v); }
  }

  lemma DeterminerKept(det: map<Variable, Constraint?>, g: Graph, det': map<Variable, Constraint?>, g': Graph, n: Constraint, e: Edge, o: Constraint?, v: Variable)
    requires Determined(det, g) && Determined(det', g') && n !in g && Taken(g, n, e, o, g') && v in det && det[v] != null && v != e.output
    ensures det[v] != o && v in det' && det'[v] == det[v] && g'[det[v]] == g[det[v]]
  {
    var d := det[v];
    assert d in g && g[d].output == v;
    assert d in g' && g'[d] == g[d];
  }

  /** Without the stay flag at the output no value changes. */
  lemma NotMoved(m: Moment, m': Moment, vars: set<Variable>, mark: nat, n: Constraint, e: Edge, o: Constraint?, ds: seq<Constraint>)
    requires Whole(m, vars) && Whole(m', vars) && Advance(m, m', mark, n, e, o, ds) && e.output in vars && !m'.stay[e.output]
    ensures m'.val == m.val
  {
    hide Trace, Covered, MarksSet, Clear, Outs, Computed;
    assert m'.g[n] == e;
    forall v | v in vars ensures m'.val[v] == m.val[v] {
      if v in Computed(m'.g, ds) {
        ComputedOut(m'.g, ds, v);
        OutStay(m', vars, ds, n, v);
      }
    }
  }

  /** A variable in the flow from `n` is rewritten when the output of `n` stays and `n` is an equality below `c`. */
  lemma InsideRewritten(m': Moment, vars: set<Variable>, n: Constraint, ds: seq<Constraint>, c: Constraint, v: Variable)
    requires Whole(m', vars) && Trace(m'.g, ds, {n}) && n in m'.g && Below(m'.g, c, n) && v in Outs(m'.g, ds)
    requires m'.g[n].output in vars && m'.stay[m'.g[n].output]
    ensures v in vars && (m'.g[n].equality || m'.det[v] != n ==> Rewritten(m', vars, c, v))
  {
    hide Below;
    OutStay(m', vars, ds, n, v);
    BelowPlanned(m'.g, ds, c, n, m'.det[v]);
  }

  /** The first step of the wave. */
  lemma ChangingFirst(m: Moment, m': Moment, vars: set<Variable>, mark: nat, n: Constraint, e: Edge, o: Constraint?, ds: seq<Constraint>)
    requires Whole(m, vars) && Whole(m', vars) && Advance(m, m', mark, n, e, o, ds) && e.output in vars
    ensures Changed(m', vars, n, m.val) && Below(m'.g, n, n)
  {
    hide Below, Trace, Covered, MarksSet, Clear, Outs, Computed, Rewritten;
    BelowSelf(m'.g, n);
    assert m'.g[n] == e;
    if !m'.stay[e.output] {
      NotMoved(m, m', vars, mark, n, e, o, ds);
    } else {
      forall v | v in vars && m'.val[v] != m.val[v] ensures Rewritten(m', vars, n, v) {
        ComputedOut(m'.g, ds, v);
        InsideRewritten(m', vars, n, ds, n, v);
      }
    }
  }

  /** A later step: the equality leads on from where the wave stands. */
  lemma ChangingOn(m: Moment, m': Moment, vars: set<Variable>, mark: nat, n: Constraint, e: Edge, o: Constraint?, ds: seq<Constraint>, c: Constraint, at: Variable, val: map<Variable, int>)
    requires Whole(m, vars) && Whole(m', vars) && val.Keys == vars && Changed(m, vars, c, val) && Stands(m, vars, n, c, mark, at, val)
    requires Advance(m, m', mark, n, e, o, ds) && e.output in vars && c in m.g && c != o
    requires e.equality && e.input == at && e.output != at && at !in Outs(m'.g, ds)
    ensures Changed(m', vars, c, val) && Below(m'.g, c, n) && (!m'.stay[e.output] ==> m'.val == val)
  {
    hide Below, Trace, Covered, MarksSet, Clear, Outs, Computed, StaysKept, Moved;
    assert m'.g[n] == e;
    StillBelow(m, m', vars, mark, n, e, o, ds, c, at, n);
    OutsideKept(m, m', vars, mark, n, e, o, ds, at);
    if !m'.stay[e.output] {
      NotMoved(m, m', vars, mark, n, e, o, ds);
    } else {
      forall v | v in vars && m'.val[v] != val[v] ensures Rewritten(m', vars, c, v) {
        if v in Outs(m'.g, ds) {
          InsideRewritten(m', vars, n, ds, c, v);
        } else {
          OutsideKept(m, m', vars, mark, n, e, o, ds, v);
          StillBelow(m, m', vars, mark, n, e, o, ds, c, at, m.det[v]);
        }
      }
    }
  }

  /** Where the wave stands next. */
  lemma StandsNext(m: Moment, m': Moment, vars: set<Variable>, cons: set<Constraint>, mark: nat, n: Constraint, e: Edge, o: Constraint?, ds: seq<Constraint>, c: Constraint, val: map<Variable, int>)
    requires Whole(m, vars) && Whole(m', vars) && Advance(m, m', mark, n, e, o, ds) && e.output in vars && EdgesOf(m.g, cons)
    requires Below(m'.g, c, n) && (m'.stay[e.output] || m'.val == val)
    ensures o != null ==> Stands(m', vars, o, c, mark, e.output, val)
  {
    hide Below, Trace, Covered, Clear, Outs, Computed, StaysKept, Moved;
    assert m'.g[n] == e && m'.det[e.output] == n;
  }

  lemma SettledStep(m: Moment, m': Moment, mark: nat, n: Constraint, e: Edge, o: Constraint?, ds: seq<Constraint>, c: Constraint)
    requires Advance(m, m', mark, n, e, o, ds) && e.output in m.mark && (n == c || Settled(m.g, m.mark, c, mark))
    ensures Settled(m'.g, m'.mark, c, mark) && o != c
  {
    hide Trace, Covered, StaysKept, Moved;
    assert m'.g[n] == e && e.output in Outs(m'.g, ds);
  }

  lemma ChangingStep(s: Snapshot, m: Moment, m': Moment, vars: set<Variable>, cons: set<Constraint>, mark: nat, n: Constraint, e: Edge, o: Constraint?, ds: seq<Constraint>, c: Constraint, at: Variable, val: map<Variable, int>)
    requires Changing(m, vars, n, c, mark, at, val) && Whole(m', vars) && Advance(m, m', mark, n, e, o, ds) && e.output in vars && EdgesOf(m.g, cons)
    requires s.mark == m.mark && PicksEdge(s, n, e) && !TooWeak(s, n, mark) && n.v1 in s.mark && (!n.kind.Equality? ==> n.v1 == n.v2)
    ensures Changing(m', vars, o, c, mark, e.output, val)
  {
    hide Below, Advance, Changed, Settled, Stands, EdgesOf, PicksEdge, TooWeak;
    SettledStep(m, m', mark, n, e, o, ds, c);
    if n == c {
      ChangingFirst(m, m', vars, mark, n, e, o, ds);
      if !m'.stay[e.output] { NotMoved(m, m', vars, mark, n, e, o, ds); }
    } else {
      NextInput(s, m, m', vars, mark, n, e, o, ds, c, at, val);
      SettledIn(m, c, mark);
      ChangingOn(m, m', vars, mark, n, e, o, ds, c, at, val);
    }
    StandsNext(m, m', vars, cons, mark, n, e, o, ds, c, val);
  }

  lemma NowParts(vars: set<Variable>, cons: set<Constraint>)
    ensures Now(vars, cons) == Moment(FlowGraph(cons), Dets(vars), Marks(vars), Stays(vars), Values(vars))
  {
  }

  lemma NowWhole(vars: set<Variable>, cons: set<Constraint>)
    requires Sound(vars, cons) && Flow(vars, FlowGraph(cons), {})
    ensures Whole(Now(vars, cons), vars)
  {
  }

  lemma SoundEnds(vars: set<Variable>, cons: set<Constraint>, c: Constraint)
    requires Sound(vars, cons) && c in cons
    ensures !c.kind.Equality? ==> c.v1 == c.v2
  {
  }

  lemma IsAdvance(m: Moment, m': Moment, mark: nat, n: Constraint, e: Edge, o: Constraint?, ds: seq<Constraint>)
    requires n !in m.g && Taken(m.g, n, e, o, m'.g) && Trace(m'.g, ds, {n}) && Covered(m'.g, ds, [], {n}) && n in ds
    requires MarksSet(m.mark, m'.mark, e, mark) && Clear(m.mark, Outs(m'.g, ds), e, mark)
    requires StaysKept(m.stay, m'.stay, Outs(m'.g, ds)) && Moved(m.val, m'.val, m'.stay, Computed(m'.g, ds))
    ensures Advance(m, m', mark, n, e, o, ds)
  {
  }

  lemma ChangingEnd(m: Moment, vars: set<Variable>, n: Constraint, c: Constraint, mark: nat, at: Variable, val: map<Variable, int>)
    requires Changing(m, vars, n, c, mark, at, val)
    ensures Changing(m, vars, null, c, mark, at, val)
  {
  }

  lemma ChangingStart(vars: set<Variable>, cons: set<Constraint>, c: Constraint, mark: nat)
    requires Sound(vars, cons) && Flow(vars, FlowGraph(cons), {})
    ensures Changing(Now(vars, cons), vars, c, c, mark, c.v1, Values(vars))
  {
    NowWhole(vars, cons);
  }

  lemma ValuesAre(vars: set<Variable>)
    ensures Values(vars).Keys == vars && forall v :: v in vars ==> Values(vars)[v] == v.value
  {
  }

  /** The variable stays and has the value of the input of the equality that determines it, and that one is reached from `c`. */
  ghost predicate Carried(m: Moment, vars: set<Variable>, c: Constraint, v: Variable) {
    Whole(m, vars) && v in vars && Rewritten(m, vars, c, v) && m.val[v] == m.val[m.g[m.det[v]].input]
  }

  /** Every variable whose value is not the one of `val` is carried. */
  ghost predicate OnlyCarried(m: Moment, vars: set<Variable>, c: Constraint, val: map<Variable, int>) {
    m.val.Keys == val.Keys == vars && forall v :: v in vars && m.val[v] != val[v] ==> Carried(m, vars, c, v)
  }

  lemma ChangingDone(vars: set<Variable>, cons: set<Constraint>, c: Constraint, mark: nat, at: Variable, val: map<Variable, int>)
    requires Sound(vars, cons) && Flow(vars, FlowGraph(cons), {}) && c in cons && Changing(Now(vars, cons), vars, null, c, mark, at, val)
    ensures OnlyCarried(Now(vars, cons), vars, c, val)
    ensures !c.IsSatisfied() ==> Values(vars) == val
    ensures !c.kind.Equality? || !c.IsSatisfied() ==> c.v1 in vars && Values(vars)[c.v1] == val[c.v1]
  {
    hide Below;
    var m := Now(vars, cons);
    SnapParts(vars, cons, c);
    if c.IsSatisfied() && !c.kind.Equality? { assert c in m.g && m.g[c] == EdgeOf(c) && m.det[c.v1] == c; }
    forall v | v in vars && Values(vars)[v] != val[v] ensures Carried(m, vars, c, v) {
      var d := m.det[v];
      assert d in m.g && FlowAt(d, m.g[d]);
    }
  }

  lemma SettledIn(m: Moment, c: Constraint, mark: nat)
    requires Settled(m.g, m.mark, c, mark)
    ensures c in m.g
  {
  }

  // ----- the values

  ghost predicate Ends(g: Graph, vars: set<Variable>) {
    forall c :: c in g ==> g[c].input in vars && g[c].output in vars
  }

  ghost predicate Holds(g: Graph, val: map<Variable, int>, c: Constraint)
    requires c in g && g[c].input in val && g[c].output in val
  {
    g[c].equality ==> val[g[c].output] == val[g[c].input]
  }

  /** The first `n` constraints of the plan hold. */
  ghost predicate HoldTo(g: Graph, plan: seq<Constraint>, n: nat, val: map<Variable, int>) {
    n <= |plan| && Ends(g, val.Keys) && forall i :: 0 <= i < n ==> plan[i] in g && Holds(g, val, plan[i])
  }

  ghost predicate KeptOutside(val: map<Variable, int>, val': map<Variable, int>, changed: set<Variable>) {
    val'.Keys == val.Keys && forall v :: v in val && v !in changed ==> val'[v] == val[v]
  }

  ghost function Execution(g: Graph, c: Constraint, val: map<Variable, int>): map<Variable, int>
    requires c in g && g[c].input in val
  {
    if g[c].equality then val[g[c].output := val[g[c].input]] else val
  }

  /** One output is computed after those of the constraints before. */
  lemma ExecuteOne(g: Graph, plan: seq<Constraint>, src: set<Constraint>, n: nat, val: map<Variable, int>)
    requires OneEach(g) && Trace(g, plan, src) && (forall s :: s in src && s in g ==> !g[s].equality) && n < |plan|
    requires HoldTo(g, plan, n, val)
    ensures plan[n] in g && g[plan[n]].input in val
    ensures HoldTo(g, plan, n + 1, Execution(g, plan[n], val)) && KeptOutside(val, Execution(g, plan[n], val), Computed(g, plan))
  {
    var e := g[plan[n]];
    var val' := Execution(g, plan[n], val);
    forall i | 0 <= i < n + 1 ensures Holds(g, val', plan[i]) {
      if g[plan[i]].equality {
        assert Reached(g, plan, i, plan[i], src);
        var j :| 0 <= j < i && Feeds(g, plan[j], plan[i]);
        assert plan[j] != plan[n];
      }
    }
  }

  lemma KeptMore(val: map<Variable, int>, val': map<Variable, int>, val'': map<Variable, int>, changed: set<Variable>)
    requires KeptOutside(val, val', changed) && KeptOutside(val', val'', changed)
    ensures KeptOutside(val, val'', changed)
  {
  }

  lemma ExecuteStart(vars: set<Variable>, cons: set<Constraint>, plan: seq<Constraint>, src: set<Constraint>)
    requires Sound(vars, cons) && forall s :: s in src ==> s.IsInput()
    ensures var g := FlowGraph(cons);
      OneEach(g) && (forall s :: s in src && s in g ==> !g[s].equality) && HoldTo(g, plan, 0, Values(vars)) &&
      KeptOutside(Values(vars), Values(vars), Computed(g, plan))
  {
    DeterminedOneEach(Dets(vars), FlowGraph(cons));
  }

  /** The equalities outside the plan have nothing to do with what it computes. */
  lemma Outside(g: Graph, plan: seq<Constraint>, src: set<Constraint>, c: Constraint)
    requires OneEach(g) && Covered(g, plan, [], src) && c in g && c !in plan && g[c].equality
    ensures g[c].input !in Outs(g, plan) && g[c].output !in Outs(g, plan)
  {
  }

  lemma PlanEnd(g: Graph, plan: seq<Constraint>, src: set<Constraint>, marks: map<Variable, nat>, mark: nat)
    requires Following(g, plan, [], src) && MarkedOuts(marks, g, plan, mark)
    ensures Trace(g, plan, src) && Covered(g, plan, [], src) && MarksUpTo(marks, mark)
  {
  }

  class Planner {
    var currentMark: nat
    ghost var vars: set<Variable>
    ghost var cons: set<Constraint>

    constructor ()
      ensures currentMark == 0 && vars == {} && cons == {}
    {
      currentMark, vars, cons := 0, {}, {};
    }

    method AddConstraintsConsumingTo(v: Variable, coll: seq<Constraint>, ghost d: Constraint)
      returns (all: seq<Constraint>, ghost next: seq<Constraint>)
      requires Sound(vars, cons) && d in FlowGraph(cons) && d.Output() == v
      ensures all == coll + next && IsNext(FlowGraph(cons), d, next) && NoRepeat(next)
    {
      hide NoRepeat, Feeds, Wired, Determined;
      ghost var g := FlowGraph(cons);
      var determining, cc := v.determinedBy, v.constraints;
      InGraph(vars, cons, d);
      ListOf(vars, cons, v);
      all, next := coll, [];
      assert NoRepeat([]) by { NoRepeatNone(); }
      for i := 0 to |cc|
        invariant all == coll + next && NoRepeat(next)
        invariant forall e :: e in next ==> e in cc[..i] && Feeds(g, d, e)
        invariant forall e :: e in g && e in cc[..i] && Feeds(g, d, e) ==> e in next
      {
        var c := cc[i];
        SplitLast(cc[..i + 1]);
        NoRepeatMore(next, c);
        Consumer(vars, cons, d, c);
        if c != determining && c.IsSatisfied() {
          all, next := all + [c], next + [c];
        }
      }
      assert cc[..|cc|] == cc;
      forall e | e in g && Feeds(g, d, e) ensures e in next { Consumer(vars, cons, d, e); }
    }

    /** The output of `d` is brought up to date; the constraints that it feeds may now be out of date. */
    method Refresh(d: Constraint, ghost g: Graph, ghost but: set<Constraint>, ghost next: seq<Constraint>)
      requires Determined(Dets(vars), g) && d in g && g[d] == EdgeOf(d)
      requires Flow(vars, g, but) && IsNext(g, d, next)
      modifies d.Output()`walkStrength, d.Output()`stay, d.Output()`value
      ensures Flow(vars, g, but - {d} + Elems(next))
      ensures !d.kind.Equality? || !d.Output().stay ==> d.Output().value == old(d.Output().value)
      ensures Walks(vars) == old(Walks(vars))[d.Output() := d.Output().walkStrength]
      ensures Stays(vars) == old(Stays(vars))[d.Output() := d.Output().stay]
      ensures Values(vars) == old(Values(vars))[d.Output() := d.Output().value]
    {
      hide Walks, Stays, Values;
      Recompute(d);
    }

    method Recompute(d: Constraint)
      requires d.Output() in vars
      modifies d.Output()`walkStrength, d.Output()`stay, d.Output()`value
      ensures FlowAt(d, EdgeOf(d))
      ensures !d.kind.Equality? || !d.Output().stay ==> d.Output().value == old(d.Output().value)
      ensures Walks(vars) == old(Walks(vars))[d.Output() := d.Output().walkStrength]
      ensures Stays(vars) == old(Stays(vars))[d.Output() := d.Output().stay]
      ensures Values(vars) == old(Values(vars))[d.Output() := d.Output().value]
    {
      hide FlowAt;
      d.Recalculate();
    }

    /** One output is brought up to date: it is the only one that may get a new value, and only if it stays. */
    method PropagateOne(d: Constraint, todo: seq<Constraint>, ghost ds: seq<Constraint>, ghost g: Graph, ghost c: Constraint)
      returns (todo': seq<Constraint>)
      requires Sound(vars, cons) && g == FlowGraph(cons) && !Feeds(g, d, c)
      requires Following(g, ds, todo + [d], {c}) && Fresh(ds, todo + [d]) && Flow(vars, g, Elems(todo + [d]))
      modifies d.Output()`walkStrength, d.Output()`stay, d.Output()`value
      ensures Following(g, ds + [d], todo', {c}) && Fresh(ds + [d], todo') && Flow(vars, g, Elems(todo'))
      ensures !d.kind.Equality? || !d.Output().stay ==> d.Output().value == old(d.Output().value)
      ensures Walks(vars) == old(Walks(vars))[d.Output() := d.Output().walkStrength]
      ensures Stays(vars) == old(Stays(vars))[d.Output() := d.Output().stay]
      ensures Values(vars) == old(Values(vars))[d.Output() := d.Output().value]
    {
      hide Following, Fresh, Flow, FlowAt, Wired, Values, Stays, Walks;
      assert d in todo + [d];
      InFlow(g, ds, todo + [d], {c}, d);
      FreshNew(ds, todo, d);
      DeterminedOneEach(Dets(vars), g);
      ghost var next;
      todo', next := AddConstraintsConsumingTo(d.Output(), todo, d);
      FollowOne(g, ds, todo, d, next, {c});
      FollowFresh(g, ds, todo, d, next, c);
      Refresh(d, g, Elems(todo + [d]), next);
      FlowMore(vars, g, Elems(todo + [d]) - {d} + Elems(next), Elems(todo'));
    }

    /** Bring the strengths and stay flags downstream of `c` up to date; false when a marked variable is met
        there, before the removal of `c` that follows in that case. */
    method AddPropagate(c: Constraint, mark: nat) returns (ok: bool, ghost ds: seq<Constraint>)
      requires Sound(vars, cons) && c in FlowGraph(cons) && Flow(vars, FlowGraph(cons), {c})
      requires c.kind.Equality? ==> c.Input().mark == mark
      modifies vars`walkStrength, vars`stay, vars`value
      ensures Trace(old(FlowGraph(cons)), ds, {c}) && c in ds
      ensures ok <==> forall v :: v in vars && v in Outs(old(FlowGraph(cons)), ds) ==> old(v.mark) != mark
      ensures ok ==> Flow(vars, FlowGraph(cons), {}) && Covered(FlowGraph(cons), ds, [], {c})
      ensures ok ==> WalksKept(old(Walks(vars)), Walks(vars), Outs(FlowGraph(cons), ds))
      ensures ok ==> StaysKept(old(Stays(vars)), Stays(vars), Outs(FlowGraph(cons), ds))
      ensures ok ==> Moved(old(Values(vars)), Values(vars), Stays(vars), Computed(FlowGraph(cons), ds))
    {
      hide Following, Fresh, Flow, FlowAt, Sound, Trace, Covered, Outs, Computed, Moved, WalksKept, StaysKept, Values, Stays, Walks;
      ghost var walk, stay, val := Walks(vars), Stays(vars), Values(vars);
      ghost var g := FlowGraph(cons);
      var todo := [c];
      ds := [];
      FollowStart(g, c);
      assert Outs(g, []) == {} by { OutsNone(g); }
      assert Elems(todo) == {c};
      NoneMoved(vars, g);
      while |todo| > 0
        invariant WalksKept(walk, Walks(vars), Outs(g, ds)) && StaysKept(stay, Stays(vars), Outs(g, ds))
        invariant Moved(val, Values(vars), Stays(vars), Computed(g, ds))
        invariant Following(g, ds, todo, {c}) && Fresh(ds, todo) && Sound(vars, cons) && FlowGraph(cons) == g
        invariant Flow(vars, g, Elems(todo))
        invariant forall v :: v in vars && v in Outs(g, ds) ==> v.mark != mark
        decreases g.Keys - Elems(ds)
      {
        var d := todo[|todo| - 1];
        SplitLast(todo);
        todo := todo[..|todo| - 1];
        InFlow(g, ds, todo + [d], {c}, d);
        FreshNew(ds, todo, d);
        InGraph(vars, cons, d);
        OutsOne(g, ds, d);
        if d.Output().mark == mark {
          FollowLast(g, ds, todo, d, {c});
          ds := ds + [d];
          TraceFirst(g, ds, c);
          assert ds[0] in ds;
          return false, ds;
        }
        ghost var walk1, stay1, val1 := Walks(vars), Stays(vars), Values(vars);
        OutsNew(vars, cons, ds, d);
        InMaps(vars, d.Output());
        todo := PropagateOne(d, todo, ds, g, c);
        KeptOne(g, ds, d, walk, walk1, d.Output().walkStrength, stay, stay1, d.Output().stay);
        MovedOne(g, ds, d, val, val1, stay1, d.Output().value, d.Output().stay);
        ds := ds + [d];
      }
      assert Elems(todo) == {};
      FollowEnd(g, ds, c);
      return true, ds;
    }

    method Override(o: Constraint)
      requires o in cons
      modifies o`direction, o`satisfied
      ensures FlowGraph(cons) == old(FlowGraph(cons)) - {o}
    {
      o.MarkUnsatisfied();
    }

    /** The constraint takes over its output from the one that determined it. */
    method TakeOutput(c: Constraint, ghost g: Graph) returns (overridden: Constraint?)
      requires Wired(Lists(vars), cons) && Determined(Dets(vars), g) && c in cons && c !in g && c.IsSatisfied()
      requires FlowGraph(cons) == g[c := EdgeOf(c)] && Flow(vars, g, {})
      modifies cons`direction, cons`satisfied, c.Output()`determinedBy
      ensures Sound(vars, cons) && Taken(g, c, EdgeOf(c), overridden, FlowGraph(cons)) && Flow(vars, FlowGraph(cons), {c})
      ensures unchanged(c)
    {
      hide *;
      ghost var e := EdgeOf(c);
      var out := c.Output();
      ghost var det := Dets(vars);
      WiredEnds(vars, cons, c);
      OutputEnd(c);
      DetsAt(vars, out);
      overridden := out.determinedBy;
      DeterminedAt(det, g, out);
      GraphTaken(g, c, e, overridden);
      FlowParts(vars, g);
      if overridden != null {
        InCons(cons, overridden);
        Override(overridden);
      }
      SetDeterminer(out, c);
      SoundTaken(vars, cons, det, g, c, e);
    }

    method SetDeterminer(v: Variable, c: Constraint)
      requires v in vars
      modifies v`determinedBy
      ensures Dets(vars) == old(Dets(vars))[v := c]
    {
      v.determinedBy := c;
    }

    method Choose(c: Constraint, mark: nat)
      requires c in cons && !c.IsSatisfied()
      modifies c`direction, c`satisfied
      ensures c.Picks(c.v1.mark == mark, c.v1.walkStrength, c.v2.walkStrength)
      ensures FlowGraph(cons) == if c.IsSatisfied() then old(FlowGraph(cons))[c := EdgeOf(c)] else old(FlowGraph(cons))
    {
      c.ChooseMethod(mark);
    }

    /** Mark the input, propagate, and mark the output. */
    method MarkAndPropagate(c: Constraint, mark: nat) returns (ok: bool, ghost ds: seq<Constraint>)
      requires Sound(vars, cons) && c in FlowGraph(cons) && Flow(vars, FlowGraph(cons), {c})
      modifies vars`mark, vars`walkStrength, vars`stay, vars`value
      ensures Trace(old(FlowGraph(cons)), ds, {c}) && c in ds
      ensures ok <==> Clear(old(Marks(vars)), Outs(old(FlowGraph(cons)), ds), EdgeOf(c), mark)
      ensures ok ==> Flow(vars, FlowGraph(cons), {}) && Covered(FlowGraph(cons), ds, [], {c})
      ensures ok ==> WalksKept(old(Walks(vars)), Walks(vars), Outs(FlowGraph(cons), ds)) && MarksSet(old(Marks(vars)), Marks(vars), EdgeOf(c), mark)
      ensures ok ==> StaysKept(old(Stays(vars)), Stays(vars), Outs(FlowGraph(cons), ds))
      ensures ok ==> Moved(old(Values(vars)), Values(vars), Stays(vars), Computed(FlowGraph(cons), ds))
    {
      hide Flow, Sound, Trace, Covered, Outs, Computed, FlowGraph, Walks, Stays, Values, WalksKept, StaysKept, Moved;
      InGraph(vars, cons, c);
      if c.kind.Equality? {
        c.Input().mark := mark;
      }
      ok, ds := AddPropagate(c, mark);
      c.Output().mark := mark;
    }

    /** The constraint has picked a method: it takes over its output and propagates. */
    method Enforce(c: Constraint, mark: nat, ghost g: Graph)
      returns (overridden: Constraint?, ok: bool, ghost ds: seq<Constraint>, ghost g': Graph)
      requires Wired(Lists(vars), cons) && Determined(Dets(vars), g) && c in cons && c !in g && c.IsSatisfied()
      requires FlowGraph(cons) == g[c := EdgeOf(c)] && Flow(vars, g, {})
      modifies cons`direction, cons`satisfied, vars`mark, vars`determinedBy, vars`walkStrength, vars`stay, vars`value
      ensures Taken(g, c, old(EdgeOf(c)), overridden, g') && Trace(g', ds, {c}) && c in ds
      ensures ok <==> Clear(old(Marks(vars)), Outs(g', ds), old(EdgeOf(c)), mark)
      ensures ok ==> unchanged(c) && Sound(vars, cons) && FlowGraph(cons) == g' && Flow(vars, g', {})
      ensures ok ==> WalksKept(old(Walks(vars)), Walks(vars), Outs(g', ds)) && MarksSet(old(Marks(vars)), Marks(vars), old(EdgeOf(c)), mark)
      ensures ok ==> Covered(g', ds, [], {c}) && StaysKept(old(Stays(vars)), Stays(vars), Outs(g', ds))
      ensures ok ==> Moved(old(Values(vars)), Values(vars), Stays(vars), Computed(g', ds))
    {
      hide *;
      WiredEnds(vars, cons, c);
      OutputEnd(c);
      overridden := TakeOutput(c, g);
      g' := FlowGraph(cons);
      TakenIn(g, c, EdgeOf(c), overridden, g');
      ok, ds := MarkAndPropagate(c, mark);
    }

    /** Attempt to enforce the constraint. A constraint that is too weak changes nothing. Another one picks an
        edge and takes over its output; a cycle is reported exactly when a marked variable is downstream of it
        then, and what the planner looks like after that report is not said. */
    method Satisfy(c: Constraint, mark: nat)
      returns (overridden: Constraint?, ok: bool, ghost ds: seq<Constraint>, ghost e: Edge, ghost g: Graph)
      requires Sound(vars, cons) && Flow(vars, FlowGraph(cons), {}) && c in cons && !c.IsSatisfied()
      modifies cons`direction, cons`satisfied, vars`mark, vars`determinedBy, vars`walkStrength, vars`stay, vars`value
      ensures old(TooWeak(Snap(vars, cons), c, mark)) ==>
        ok && overridden == null && !c.IsSatisfied() && Sound(vars, cons) && FlowGraph(cons) == old(FlowGraph(cons)) && unchanged(vars)
      ensures !old(TooWeak(Snap(vars, cons), c, mark)) ==>
        PicksEdge(old(Snap(vars, cons)), c, e) && Taken(old(FlowGraph(cons)), c, e, overridden, g) && Trace(g, ds, {c}) && c in ds
      ensures !old(TooWeak(Snap(vars, cons), c, mark)) ==>
        (old(e.output.walkStrength) <= c.strength <==> c.kind.Equality? && old(c.v1.walkStrength <= c.v2.walkStrength <= c.strength))
      ensures !old(TooWeak(Snap(vars, cons), c, mark)) ==> (ok <==> Clear(old(Marks(vars)), Outs(g, ds), e, mark))
      ensures !old(TooWeak(Snap(vars, cons), c, mark)) && ok ==>
        c.IsSatisfied() && Sound(vars, cons) && FlowGraph(cons) == g && EdgeOf(c) == e && Flow(vars, g, {})
      ensures !old(TooWeak(Snap(vars, cons), c, mark)) && ok ==>
        WalksKept(old(Walks(vars)), Walks(vars), Outs(g, ds)) && MarksSet(old(Marks(vars)), Marks(vars), e, mark)
      ensures !old(TooWeak(Snap(vars, cons), c, mark)) && ok ==>
        Covered(g, ds, [], {c}) && StaysKept(old(Stays(vars)), Stays(vars), Outs(g, ds)) &&
        Moved(old(Values(vars)), Values(vars), Stays(vars), Computed(g, ds))
    {
      hide *;
      ghost var s := Snap(vars, cons);
      ds, e, g := [], EdgeOf(c), FlowGraph(cons);
      SnapParts(vars, cons, c);
      SoundParts(vars, cons, c);
      Choose(c, mark);
      PicksMeans(s, c, mark);
      if !c.IsSatisfied() {
        SoundSame(vars, cons, g);
        return null, true, ds, e, g;
      }
      e := EdgeOf(c);
      PicksStronger(s, c, e, mark);
      OutputEnd(c);
      overridden, ok, ds, g := Enforce(c, mark, g);
    }

    method NewMark() returns (mark: nat)
      requires MarksUpTo(Marks(vars), currentMark)
      modifies this`currentMark
      ensures mark == currentMark == old(currentMark) + 1 && MarksUpTo(Marks(vars), currentMark)
      ensures forall v :: v in vars ==> v.mark != mark
    {
      assert forall v :: v in vars ==> v.mark == Marks(vars)[v];
      currentMark := currentMark + 1;
      mark := currentMark;
    }

    /** One constraint of the wave is satisfied, or is too weak, which ends the wave. */
    method SatisfyNext(next: Constraint, mark: nat, ghost pos: map<Variable, int>, ghost x: Variable, ghost y: Variable)
      returns (overridden: Constraint?, ok: bool, ghost x': Variable, ghost y': Variable, ghost ds: seq<Constraint>)
      requires Sound(vars, cons) && Flow(vars, FlowGraph(cons), {}) && next in cons && !next.IsSatisfied()
      requires Strengths(Snap(vars, cons), vars)
      modifies cons`direction, cons`satisfied, vars`mark, vars`determinedBy, vars`walkStrength, vars`stay, vars`value
      ensures ok ==> Sound(vars, cons) && Flow(vars, FlowGraph(cons), {}) && Strengths(Snap(vars, cons), vars)
      ensures old(TooWeak(Snap(vars, cons), next, mark)) ==>
        ok && overridden == null && Snap(vars, cons) == old(Snap(vars, cons)) && Now(vars, cons) == old(Now(vars, cons))
      ensures !old(TooWeak(Snap(vars, cons), next, mark)) && ok ==>
        next.IsSatisfied() && Taken(old(FlowGraph(cons)), next, EdgeOf(next), overridden, FlowGraph(cons)) &&
        MarksSet(old(Marks(vars)), Marks(vars), EdgeOf(next), mark) && EdgeOf(next).output in old(Unmarked(Marks(vars), mark))
      ensures !old(TooWeak(Snap(vars, cons), next, mark)) && ok ==>
        Advance(old(Now(vars, cons)), Now(vars, cons), mark, next, EdgeOf(next), overridden, ds) && PicksEdge(old(Snap(vars, cons)), next, EdgeOf(next))
      ensures old(Rolls(vars, cons, pos, mark, next, x, y)) ==> ok && (overridden != null ==> Rolls(vars, cons, pos, mark, overridden, x', y'))
    {
      hide *;
      ghost var s := Snap(vars, cons);
      ghost var e, g;
      SnapParts(vars, cons, next);
      NowParts(vars, cons);
      x', y' := x, y;
      RollsIs(vars, cons, pos, mark, next, x, y);
      ghost var rolls := Rolls(vars, cons, pos, mark, next, x, y);
      overridden, ok, ds, e, g := Satisfy(next, mark);
      if TooWeak(s, next, mark) {
        SnapParts(vars, cons, next);
        NowParts(vars, cons);
        assert Walks(vars) == s.walk && Marks(vars) == s.mark;
      } else {
        EdgesTaken(s, vars, cons, next, e, overridden, g);
        ClearOwn(s, g, next, e, overridden, ds, mark);
        if rolls {
          WaveEdge(s, vars, cons, pos, mark, next, x, y, e);
          WaveClear(s, g, vars, cons, pos, mark, next, e, overridden, ds);
        }
        if ok {
          SnapParts(vars, cons, next);
          ghost var s' := Snap(vars, cons);
          IsStep(s, s', vars, mark, next, e, overridden, ds);
          NowParts(vars, cons);
          IsAdvance(old(Now(vars, cons)), Now(vars, cons), mark, next, e, overridden, ds);
          if rolls && overridden != null {
            x', y' := e.output, s.g[overridden].input;
            if e.equality {
              WaveNext(s, s', vars, cons, pos, mark, next, e, overridden, ds);
            } else {
              WaveFirst(s, s', vars, cons, pos, mark, next, e, overridden, ds);
            }
            RollsIs(vars, cons, pos, mark, overridden, x', y');
          }
        }
      }
    }

    /** Satisfy the constraint, then each one that is overridden, until none is or one is too weak. */
    method IncrementalAdd(c: Constraint, ghost pos: map<Variable, int>) returns (ok: bool, ghost lost: Constraint?)
      requires Sound(vars, cons) && Flow(vars, FlowGraph(cons), {}) && MarksUpTo(Marks(vars), currentMark) && c in cons && !c.IsSatisfied()
      modifies this`currentMark, cons`direction, cons`satisfied, vars`mark, vars`determinedBy, vars`walkStrength, vars`stay, vars`value
      ensures ok ==> Sound(vars, cons) && Flow(vars, FlowGraph(cons), {}) && MarksUpTo(Marks(vars), currentMark)
      ensures ok ==> FlowGraph(cons).Keys == Without(old(FlowGraph(cons)).Keys + {c}, lost)
      ensures ok && lost != null ==> TooWeak(Snap(vars, cons), lost, currentMark)
      ensures ok && !c.kind.Equality? && old(c.strength < c.v1.walkStrength) ==> lost != c
      ensures ok ==> OnlyCarried(Now(vars, cons), vars, c, old(Values(vars)))
      ensures ok && (!c.kind.Equality? || !c.IsSatisfied()) ==> c.v1.value == old(c.v1.value)
      ensures ok && !c.IsSatisfied() ==> Values(vars) == old(Values(vars))
      ensures old(Line(vars, cons, pos) && Starts(c)) ==> ok
    {
      hide *;
      ghost var all, onLine := FlowGraph(cons).Keys + {c}, Line(vars, cons, pos) && Starts(c);
      ghost var strong := !c.kind.Equality? && c.strength < c.v1.walkStrength;
      var mark := NewMark();
      SnapParts(vars, cons, c);
      AddingStart(Snap(vars, cons), cons, mark, c);
      if onLine {
        WaveStart(vars, cons, pos, mark, c);
      }
      ghost var val, at := Values(vars), c.v1;
      ChangingStart(vars, cons, c, mark);
      ValuesAre(vars);
      ok, lost, at := SatisfyAll(c, mark, pos, onLine, all, strong, val);
      if ok {
        ValuesAre(vars);
        ChangingDone(vars, cons, c, mark, at, val);
        SnapParts(vars, cons, c);
        AddingLast(Snap(vars, cons), cons, all, lost, mark, c, strong);
      }
    }

    method SatisfyAll(c: Constraint, mark: nat, ghost pos: map<Variable, int>, ghost onLine: bool, ghost all: set<Constraint>, ghost strong: bool, ghost val: map<Variable, int>)
      returns (ok: bool, ghost lost: Constraint?, ghost at: Variable)
      requires Sound(vars, cons) && Flow(vars, FlowGraph(cons), {}) && Strengths(Snap(vars, cons), vars)
      requires Adding(Snap(vars, cons), cons, all, c, null, mark, c, strong)
      requires onLine ==> Rolls(vars, cons, pos, mark, c, c.v1, c.v2)
      requires Changing(Now(vars, cons), vars, c, c, mark, c.v1, val)
      modifies cons`direction, cons`satisfied, vars`mark, vars`determinedBy, vars`walkStrength, vars`stay, vars`value
      ensures ok ==> Sound(vars, cons) && Flow(vars, FlowGraph(cons), {}) && Adding(Snap(vars, cons), cons, all, null, lost, mark, c, strong)
      ensures ok ==> Changing(Now(vars, cons), vars, null, c, mark, at, val)
      ensures onLine ==> ok
    {
      hide *;
      var next: Constraint? := c;
      ghost var x, y := c.v1, c.v2;
      ok, lost, at := true, null, c.v1;
      while next != null
        invariant Sound(vars, cons) && Flow(vars, FlowGraph(cons), {}) && Strengths(Snap(vars, cons), vars)
        invariant ok && Adding(Snap(vars, cons), cons, all, next, lost, mark, c, strong)
        invariant Changing(Now(vars, cons), vars, next, c, mark, at, val)
        invariant onLine && next != null ==> Rolls(vars, cons, pos, mark, next, x, y)
        decreases Unmarked(Snap(vars, cons).mark, mark), next
      {
        AddingNext(vars, cons, all, next, lost, mark, c, strong);
        next, ok, lost, x, y, at := AddOne(next, mark, pos, x, y, all, c, strong, at, val);
        if !ok {
          return;
        }
      }
    }

    method AddOne(
      n: Constraint, mark: nat, ghost pos: map<Variable, int>, ghost x: Variable, ghost y: Variable,
      ghost all: set<Constraint>, ghost c: Constraint, ghost strong: bool, ghost at: Variable, ghost val: map<Variable, int>
    )
      returns (next: Constraint?, ok: bool, ghost lost: Constraint?, ghost x': Variable, ghost y': Variable, ghost at': Variable)
      requires Sound(vars, cons) && Flow(vars, FlowGraph(cons), {}) && Strengths(Snap(vars, cons), vars) && n in cons && !n.IsSatisfied()
      requires Adding(Snap(vars, cons), cons, all, n, null, mark, c, strong) && Changing(Now(vars, cons), vars, n, c, mark, at, val)
      modifies cons`direction, cons`satisfied, vars`mark, vars`determinedBy, vars`walkStrength, vars`stay, vars`value
      ensures ok ==> Sound(vars, cons) && Flow(vars, FlowGraph(cons), {}) && Strengths(Snap(vars, cons), vars)
      ensures ok ==> Adding(Snap(vars, cons), cons, all, next, lost, mark, c, strong) && Changing(Now(vars, cons), vars, next, c, mark, at', val)
      ensures ok && next != null ==> Unmarked(Snap(vars, cons).mark, mark) < old(Unmarked(Snap(vars, cons).mark, mark))
      ensures ok && next == null ==> Unmarked(Snap(vars, cons).mark, mark) <= old(Unmarked(Snap(vars, cons).mark, mark))
      ensures old(Rolls(vars, cons, pos, mark, n, x, y)) ==> ok && (next != null ==> Rolls(vars, cons, pos, mark, next, x', y'))
    {
      hide *;
      ghost var s := Snap(vars, cons);
      ghost var m, ds := Now(vars, cons), [];
      SnapParts(vars, cons, n);
      NowParts(vars, cons);
      SoundEnds(vars, cons, n);
      next, ok, x', y', ds := SatisfyNext(n, mark, pos, x, y);
      lost, at' := null, at;
      if TooWeak(s, n, mark) {
        AddingEnd(s, cons, all, n, mark, c, strong);
        ChangingEnd(m, vars, n, c, mark, at, val);
        lost := n;
      } else if ok {
        SnapParts(vars, cons, n);
        at' := EdgeOf(n).output;
        NowWhole(vars, cons);
        ChangingStep(s, m, Now(vars, cons), vars, cons, mark, n, EdgeOf(n), next, ds, c, at, val);
        AddingStep(s, Snap(vars, cons), cons, all, n, EdgeOf(n), next, mark, c, strong);
      }
    }

    method SetMark(v: Variable, mark: nat)
      requires v in vars
      modifies v`mark
      ensures Marks(vars) == old(Marks(vars))[v := mark]
    {
      v.mark := mark;
    }

    /** The satisfied constraints downstream of the sources, each after the one that computes its input. */
    method MakePlan(sources: seq<Constraint>) returns (plan: seq<Constraint>)
      requires Sound(vars, cons) && MarksUpTo(Marks(vars), currentMark)
      requires forall s :: s in sources ==> s in FlowGraph(cons) && !s.kind.Equality?
      modifies this`currentMark, vars`mark
      ensures MarksUpTo(Marks(vars), currentMark)
      ensures Trace(FlowGraph(cons), plan, Elems(sources)) && Covered(FlowGraph(cons), plan, [], Elems(sources))
    {
      hide *;
      ghost var g, src := FlowGraph(cons), Elems(sources);
      var mark := NewMark();
      plan := [];
      var todo := sources;
      PlanStart(g, vars, cons, sources, mark);
      while |todo| > 0
        invariant Following(g, plan, todo, src) && MarkedOuts(Marks(vars), g, plan, mark) && currentMark == mark
        decreases g.Keys - Elems(plan), |todo|
      {
        ghost var m := Marks(vars);
        var c := todo[|todo| - 1];
        SplitLast(todo);
        todo := todo[..|todo| - 1];
        InFlow(g, plan, todo + [c], src, c);
        InGraph(vars, cons, c);
        if c.Output().mark != mark && c.InputsKnown(mark) {
          PlanNew(vars, g, plan, c, mark);
          ghost var next;
          SetMark(c.Output(), mark);
          OutsOne(g, plan, c);
          MarkOne(m, g, plan, c, mark);
          ghost var todo0 := todo;
          todo, next := AddConstraintsConsumingTo(c.Output(), todo, c);
          FollowOne(g, plan, todo0, c, next, src);
          plan := plan + [c];
        } else {
          PlanOld(vars, cons, plan, todo, c, mark, src);
          FollowNone(g, plan, todo, c, src);
        }
      }
      PlanEnd(g, plan, src, Marks(vars), mark);
    }

    method ExtractPlanFromConstraints(constraints: seq<Constraint>) returns (plan: seq<Constraint>, ghost src: set<Constraint>)
      requires Sound(vars, cons) && MarksUpTo(Marks(vars), currentMark) && forall c :: c in constraints ==> c in cons
      modifies this`currentMark, vars`mark
      ensures MarksUpTo(Marks(vars), currentMark)
      ensures src == set c | c in constraints && c.IsInput() && c.IsSatisfied()
      ensures Trace(FlowGraph(cons), plan, src) && Covered(FlowGraph(cons), plan, [], src)
    {
      hide Trace, Covered, Sound, MarksUpTo;
      var sources: seq<Constraint> := [];
      for i := 0 to |constraints|
        invariant MarksUpTo(Marks(vars), currentMark)
        invariant forall s :: s in sources <==> s in constraints[..i] && s.IsInput() && s.IsSatisfied()
      {
        var c := constraints[i];
        SplitLast(constraints[..i + 1]);
        if c.IsInput() && c.IsSatisfied() {
          sources := sources + [c];
        }
      }
      assert constraints[..|constraints|] == constraints;
      plan := MakePlan(sources);
      src := Elems(sources);
    }

    /** Every planned equality holds in the end; nothing else is changed than their outputs. */
    method Execute(plan: seq<Constraint>, ghost src: set<Constraint>)
      requires Sound(vars, cons) && Trace(FlowGraph(cons), plan, src) && forall s :: s in src ==> s.IsInput()
      modifies vars`value
      ensures HoldTo(FlowGraph(cons), plan, |plan|, Values(vars))
      ensures KeptOutside(old(Values(vars)), Values(vars), Computed(FlowGraph(cons), plan))
    {
      hide *;
      ghost var g, val := FlowGraph(cons), Values(vars);
      ExecuteStart(vars, cons, plan, src);
      for i := 0 to |plan|
        invariant HoldTo(g, plan, i, Values(vars)) && KeptOutside(val, Values(vars), Computed(g, plan))
      {
        var c := plan[i];
        ghost var val' := Values(vars);
        ExecuteOne(g, plan, src, i, val');
        InGraph(vars, cons, c);
        ExecuteAt(c, g);
        KeptMore(val, val', Values(vars), Computed(g, plan));
      }
    }

    method ExecuteAt(c: Constraint, ghost g: Graph)
      requires c in g && g[c] == EdgeOf(c) && c.Input() in vars && c.Output() in vars && g[c].input in Values(vars)
      modifies vars`value
      ensures Values(vars) == Execution(g, c, old(Values(vars)))
    {
      c.Execute();
    }
  }
}
