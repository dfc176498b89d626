/** What a run of the Boyer rewriter is, apart from the rewriter: which lemma is used where, and how many calls
    it takes. */
module BoyerRuns {
  import opened Common
  import opened Boyer

  // ----- which lemma is used

  function RuleCount(rs: Rules): nat {
    if rs.NoRules? then 0 else 1 + RuleCount(rs.others)
  }

  function RuleAt(rs: Rules, j: nat): Rule
    requires j < RuleCount(rs)
  {
    if j == 0 then rs.first else RuleAt(rs.others, j - 1)
  }

  /** The term is an instance of the pattern. */
  ghost predicate IsInstance(t: Term, p: Term) {
    exists s :: Proper(s) && Bound(p, s) && ApplySubst(s, p) == t
  }

  predicate Occurs(a: Atom, t: Term) {
    match t
    case Leaf(b) => a == b
    case App(_, args) => OccursInList(a, args)
  }

  predicate OccursInList(a: Atom, ts: Terms) {
    ts.Cons? && (Occurs(a, ts.head) || OccursInList(a, ts.tail))
  }

  /** The substitution makes the pattern the term, and binds nothing but symbols of the pattern. */
  ghost predicate Makes(s: Subst, p: Term, t: Term) {
    Proper(s) && Bound(p, s) && ApplySubst(s, p) == t && forall a :: Assq(a, s).Some? ==> Occurs(a, p)
  }

  /** Lemma `k` is the first one of which the term is an instance, by the substitution `s`. */
  ghost predicate First(t: Term, rs: Rules, k: nat, s: Subst) {
    k < RuleCount(rs) && Makes(s, RuleAt(rs, k).lhs, t) && forall j :: 0 <= j < k ==> !IsInstance(t, RuleAt(rs, j).lhs)
  }

  ghost predicate NoInstance(t: Term, rs: Rules) {
    forall j :: 0 <= j < RuleCount(rs) ==> !IsInstance(t, RuleAt(rs, j).lhs)
  }

  // ----- runs

  /** A call of `rewrite`: on a leaf; on a term whose rewritten arguments leave nothing to be done; or on a term
      to which lemma `k` applies by `s` once its arguments have become `us`, with a call for the result. */
  datatype Run = Atomic | Final(args: Runs) | Replaced(args: Runs, us: Terms, k: nat, s: Subst, next: Run)

  datatype Runs = NoRuns | AndRun(first: Run, others: Runs)

  /** The number of calls. */
  function Calls(r: Run): nat {
    match r
    case Atomic => 1
    case Final(args) => 1 + AllCalls(args)
    case Replaced(args, _, _, _, next) => 1 + AllCalls(args) + Calls(next)
  }

  function AllCalls(rs: Runs): nat {
    match rs
    case NoRuns => 0
    case AndRun(r, rest) => Calls(r) + AllCalls(rest)
  }

  /** The run makes `u` of `t`. */
  ghost predicate Yields(db: Lemmas, r: Run, t: Term, u: Term)
    decreases r
  {
    match r
    case Atomic => t.Leaf? && u == t
    case Final(args) => t.App? && u.App? && u.op == t.op && YieldAll(db, args, t.args, u.args) && NoInstance(u, db(t.op))
    case Replaced(args, us, k, s, next) =>
      t.App? && YieldAll(db, args, t.args, us) && First(App(t.op, us), db(t.op), k, s) &&
      Yields(db, next, ApplySubst(s, RuleAt(db(t.op), k).rhs), u)
  }

  ghost predicate YieldAll(db: Lemmas, rs: Runs, ts: Terms, us: Terms)
    decreases rs
  {
    match rs
    case NoRuns => ts.Nil? && us.Nil?
    case AndRun(r, rest) => ts.Cons? && us.Cons? && Yields(db, r, ts.head, us.head) && YieldAll(db, rest, ts.tail, us.tail)
  }

  // ----- the first lemma

  lemma {:induction false} UnifyOnly(t: Term, p: Term, s: Subst)
    ensures forall a :: Assq(a, Unify(t, p, s).subst).Some? ==> Assq(a, s).Some? || Occurs(a, p)
    decreases p
  {
    if p.App? && t.App? { UnifyListOnly(t.args, p.args, s); }
  }

  lemma {:induction false} UnifyListOnly(ts: Terms, ps: Terms, s: Subst)
    ensures forall a :: Assq(a, UnifyList(ts, ps, s).subst).Some? ==> Assq(a, s).Some? || OccursInList(a, ps)
    decreases ps
  {
    if ps.Cons? && ts.Cons? {
      UnifyOnly(ts.head, ps.head, s);
      UnifyListOnly(ts.tail, ps.tail, Unify(ts.head, ps.head, s).subst);
    }
  }

  lemma {:induction false} BoundOccurs(p: Term, s: Subst, a: Atom)
    requires Bound(p, s) && Occurs(a, p)
    ensures a.Symbol? ==> Assq(a, s).Some?
    decreases p
  {
    if p.App? { BoundOccursInList(p.args, s, a); }
  }

  lemma {:induction false} BoundOccursInList(ps: Terms, s: Subst, a: Atom)
    requires AllBound(ps, s) && OccursInList(a, ps)
    ensures a.Symbol? ==> Assq(a, s).Some?
    decreases ps
  {
    if Occurs(a, ps.head) { BoundOccurs(ps.head, s, a); } else { BoundOccursInList(ps.tail, s, a); }
  }

  lemma {:induction false} SameApply(s: Subst, s': Subst, t: Term)
    requires forall a :: Assq(a, s) == Assq(a, s')
    ensures ApplySubst(s, t) == ApplySubst(s', t)
    decreases t
  {
    if t.App? { SameApplyList(s, s', t.args); }
  }

  lemma {:induction false} SameApplyList(s: Subst, s': Subst, ts: Terms)
    requires forall a :: Assq(a, s) == Assq(a, s')
    ensures ApplySubstList(s, ts) == ApplySubstList(s', ts)
    decreases ts
  {
    if ts.Cons? {
      SameApply(s, s', ts.head);
      SameApplyList(s, s', ts.tail);
    }
  }

  /** Unification makes the term of the pattern, and nothing else does. */
  lemma UnifyMakes(t: Term, p: Term)
    requires Unify(t, p, Empty).ok
    ensures Makes(Unify(t, p, Empty).subst, p, t)
  {
    UnifySound(t, p, Empty);
    UnifyExtends(t, p, Empty);
    UnifyOnly(t, p, Empty);
  }

  lemma MakesUnique(t: Term, p: Term, s: Subst, rhs: Term)
    requires Makes(s, p, t)
    ensures Unify(t, p, Empty).ok && ApplySubst(Unify(t, p, Empty).subst, rhs) == ApplySubst(s, rhs)
  {
    var m := Unify(t, p, Empty);
    UnifyComplete(t, p, Empty, s);
    UnifyMakes(t, p);
    forall a ensures Assq(a, s) == Assq(a, m.subst) {
      if Assq(a, m.subst).None? && Assq(a, s).Some? { BoundOccurs(p, m.subst, a); }
    }
    SameApply(s, m.subst, rhs);
  }

  lemma {:induction false} FirstNone(t: Term, rs: Rules)
    ensures FirstMatch(t, rs).None? <==> NoInstance(t, rs)
  {
    if rs.Rules? {
      FirstNone(t, rs.others);
      UnifyIff(t, rs.first.lhs);
      assert RuleAt(rs, 0) == rs.first && forall j :: 0 < j < RuleCount(rs) ==> RuleAt(rs, j) == RuleAt(rs.others, j - 1);
      if NoInstance(t, rs) {
        forall j | 0 <= j < RuleCount(rs.others) ensures !IsInstance(t, RuleAt(rs.others, j).lhs) { assert RuleAt(rs, j + 1) == RuleAt(rs.others, j); }
      }
    }
  }

  lemma {:induction false} FirstFound(t: Term, rs: Rules) returns (k: nat, s: Subst)
    requires FirstMatch(t, rs).Some?
    ensures First(t, rs, k, s) && FirstMatch(t, rs).value == ApplySubst(s, RuleAt(rs, k).rhs)
  {
    var m := Unify(t, rs.first.lhs, Empty);
    if m.ok {
      UnifyMakes(t, rs.first.lhs);
      k, s := 0, m.subst;
    } else {
      UnifyIff(t, rs.first.lhs);
      var k', s' := FirstFound(t, rs.others);
      k, s := k' + 1, s';
      assert forall j :: 0 < j <= k ==> RuleAt(rs, j) == RuleAt(rs.others, j - 1);
    }
  }

  lemma {:induction false} FirstIs(t: Term, rs: Rules, k: nat, s: Subst)
    requires First(t, rs, k, s)
    ensures FirstMatch(t, rs) == Some(ApplySubst(s, RuleAt(rs, k).rhs))
    decreases k
  {
    UnifyIff(t, rs.first.lhs);
    if k == 0 {
      MakesUnique(t, rs.first.lhs, s, rs.first.rhs);
    } else {
      assert !IsInstance(t, RuleAt(rs, 0).lhs);
      forall j | 0 <= j < k - 1 ensures !IsInstance(t, RuleAt(rs.others, j).lhs) { assert RuleAt(rs, j + 1) == RuleAt(rs.others, j); }
      FirstIs(t, rs.others, k - 1, s);
    }
  }

  // ----- the rewriter finds the runs

  lemma {:induction false} RunFor(db: Lemmas, t: Term, fuel: nat) returns (r: Run)
    requires Rewrite(db, t, fuel).Some?
    ensures Yields(db, r, t, Rewrite(db, t, fuel).value.result) && Calls(r) == Rewrite(db, t, fuel).value.calls
    decreases fuel, t, 0
  {
    if t.Leaf? {
      r := Atomic;
    } else {
      var args := RunsFor(db, t.args, fuel);
      var us := RewriteArgs(db, t.args, fuel).value.result;
      var t' := App(t.op, us);
      FirstNone(t', db(t.op));
      if FirstMatch(t', db(t.op)).None? {
        r := Final(args);
      } else {
        var k, s := FirstFound(t', db(t.op));
        var next := RunFor(db, FirstMatch(t', db(t.op)).value, fuel - 1);
        r := Replaced(args, us, k, s, next);
      }
    }
  }

  lemma {:induction false} RunsFor(db: Lemmas, ts: Terms, fuel: nat) returns (rs: Runs)
    requires RewriteArgs(db, ts, fuel).Some?
    ensures YieldAll(db, rs, ts, RewriteArgs(db, ts, fuel).value.result) && AllCalls(rs) == RewriteArgs(db, ts, fuel).value.calls
    decreases fuel, ts, 1
  {
    if ts.Nil? {
      rs := NoRuns;
    } else {
      var r := RunFor(db, ts.head, fuel);
      var rest := RunsFor(db, ts.tail, fuel);
      rs := AndRun(r, rest);
    }
  }

  function Max(a: nat, b: nat): nat {
    if a < b then b else a
  }

  /** How many replacements in a row the run has. */
  function InARow(r: Run): nat {
    match r
    case Atomic => 0
    case Final(args) => AllInARow(args)
    case Replaced(args, _, _, _, next) => Max(AllInARow(args), 1 + InARow(next))
  }

  function AllInARow(rs: Runs): nat {
    match rs
    case NoRuns => 0
    case AndRun(r, rest) => Max(InARow(r), AllInARow(rest))
  }

  lemma {:induction false} RunFound(db: Lemmas, r: Run, t: Term, u: Term, fuel: nat)
    requires Yields(db, r, t, u) && InARow(r) <= fuel
    ensures Rewrite(db, t, fuel) == Some(Rewritten(u, Calls(r)))
    decreases r
  {
    hide ApplySubst, Makes, IsInstance, FirstMatch, RuleAt, RuleCount;
    match r
    case Atomic =>
    case Final(args) =>
      RunsFound(db, args, t.args, u.args, fuel);
      FirstNone(u, db(t.op));
    case Replaced(args, us, k, s, next) =>
      RunsFound(db, args, t.args, us, fuel);
      FirstIs(App(t.op, us), db(t.op), k, s);
      RunFound(db, next, ApplySubst(s, RuleAt(db(t.op), k).rhs), u, fuel - 1);
  }

  lemma {:induction false} RunsFound(db: Lemmas, rs: Runs, ts: Terms, us: Terms, fuel: nat)
    requires YieldAll(db, rs, ts, us) && AllInARow(rs) <= fuel
    ensures RewriteArgs(db, ts, fuel) == Some(Rewritten(us, AllCalls(rs)))
    decreases rs
  {
    hide First, NoInstance, FirstMatch;
    if rs.AndRun? {
      RunFound(db, rs.first, ts.head, us.head, fuel);
      RunsFound(db, rs.others, ts.tail, us.tail, fuel);
    }
  }

  /** There is a run from `t` to `u` of that many calls. */
  ghost predicate RunsTo(db: Lemmas, t: Term, u: Term, calls: nat) {
    exists r :: Yields(db, r, t, u) && Calls(r) == calls
  }

  ghost predicate Rewrites(db: Lemmas, t: Term, u: Term, calls: nat) {
    exists fuel: nat :: Rewrite(db, t, fuel) == Some(Rewritten(u, calls))
  }

  /** `rewrite` has an answer exactly when there is a run, and then its result and its number of calls are those
      of the run. */
  lemma RewriteIff(db: Lemmas, t: Term, u: Term, calls: nat)
    ensures Rewrites(db, t, u, calls) <==> RunsTo(db, t, u, calls)
  {
    if Rewrites(db, t, u, calls) {
      var fuel: nat :| Rewrite(db, t, fuel) == Some(Rewritten(u, calls));
      var r := RunFor(db, t, fuel);
    }
    if RunsTo(db, t, u, calls) {
      var r :| Yields(db, r, t, u) && Calls(r) == calls;
      RunFound(db, r, t, u, InARow(r));
    }
  }

  // ----- the benchmark

  ghost predicate Answers(db: Lemmas, statement: Term, alist: Subst, n: nat, answer: Option<nat>) {
    exists fuel: nat :: Test(db, statement, alist, n, fuel) == Some(answer)
  }

  /** The benchmark answers with the number of calls exactly when there is a run of that many calls from the
      instance of the statement to a term that holds along all its branches. */
  lemma AnswerIff(db: Lemmas, statement: Term, alist: Subst, n: nat, calls: nat)
    ensures Answers(db, statement, alist, n, Some(calls)) <==>
      exists u :: RunsTo(db, ApplySubst(alist, Ors(statement, n)), u, calls) && HoldsAlways(u)
  {
    var t := ApplySubst(alist, Ors(statement, n));
    hide HoldsAlways, RunsTo, ApplySubst, Ors, Tautology;
    if Answers(db, statement, alist, n, Some(calls)) {
      var fuel: nat :| Test(db, statement, alist, n, fuel) == Some(Some(calls));
      var u := Rewrite(db, t, fuel).value.result;
      assert Rewrites(db, t, u, calls);
      RewriteIff(db, t, u, calls);
      TautologyExact(u);
      assert RunsTo(db, t, u, calls) && HoldsAlways(u);
    }
    if u :| RunsTo(db, t, u, calls) && HoldsAlways(u) {
      RewriteIff(db, t, u, calls);
      TautologyExact(u);
      var fuel: nat :| Rewrite(db, t, fuel) == Some(Rewritten(u, calls));
      assert Test(db, statement, alist, n, fuel) == Some(Some(calls));
    }
  }

  /** It answers no exactly when there is a run to a term that is rejected. */
  lemma RejectIff(db: Lemmas, statement: Term, alist: Subst, n: nat)
    ensures Answers(db, statement, alist, n, None) <==>
      exists u, calls :: RunsTo(db, ApplySubst(alist, Ors(statement, n)), u, calls) && Tautology(u, Nil, Nil) == Some(false)
  {
    var t := ApplySubst(alist, Ors(statement, n));
    hide RunsTo, ApplySubst, Ors, Tautology;
    if Answers(db, statement, alist, n, None) {
      var fuel: nat :| Test(db, statement, alist, n, fuel) == Some(None);
      var r := Rewrite(db, t, fuel).value;
      assert Rewrites(db, t, r.result, r.calls);
      RewriteIff(db, t, r.result, r.calls);
    }
    if u, calls: nat :| RunsTo(db, t, u, calls) && Tautology(u, Nil, Nil) == Some(false) {
      RewriteIff(db, t, u, calls);
      var fuel: nat :| Rewrite(db, t, fuel) == Some(Rewritten(u, calls));
      assert Test(db, statement, alist, n, fuel) == Some(None);
    }
  }

  // ----- the order of the lemmas

  /** An equation whose left side is a compound term. */
  predicate IsEquation(t: Term) {
    t.App? && t.op == "equal" && t.args.Cons? && t.args.head.App? && t.args.tail.Cons?
  }

  predicate AllEquations(ts: Terms) {
    ts.Cons? ==> IsEquation(ts.head) && AllEquations(ts.tail)
  }

  /** The equations about an operator, in the order in which they are given. */
  function About(op: string, ts: Terms): seq<Rule>
    requires AllEquations(ts)
  {
    if ts.Nil? then []
    else (if ts.head.args.head.op == op then [Rule(ts.head.args.head, ts.head.args.tail.head)] else []) + About(op, ts.tail)
  }

  /** The lemmas `rs` are the equations `es`, the last one first, and then the lemmas `old`. */
  ghost predicate LastFirst(rs: Rules, es: seq<Rule>, earlier: Rules) {
    RuleCount(rs) == |es| + RuleCount(earlier) &&
    forall j :: 0 <= j < RuleCount(rs) ==> RuleAt(rs, j) == if j < |es| then es[|es| - 1 - j] else RuleAt(earlier, j - |es|)
  }

  /** The set-up accepts exactly the equations, and stores those about an operator with the last one first. */
  lemma {:induction false} SetupOrder(db: Lemmas, ts: Terms, op: string)
    ensures Setup(db, ts).Some? <==> AllEquations(ts)
    ensures AllEquations(ts) ==> LastFirst(Setup(db, ts).value(op), About(op, ts), db(op))
    decreases ts
  {
    if ts.Cons? && IsEquation(ts.head) {
      var db' := AddLemma(db, ts.head).value;
      SetupOrder(db', ts.tail, op);
      var e := Rule(ts.head.args.head, ts.head.args.tail.head);
      if AllEquations(ts) && ts.head.args.head.op == op {
        assert db'(op) == Rules(e, db(op)) && About(op, ts) == [e] + About(op, ts.tail);
        PushedFirst(Setup(db, ts).value(op), About(op, ts.tail), e, db(op));
      } else if AllEquations(ts) {
        assert [] + About(op, ts.tail) == About(op, ts.tail);
      }
    }
  }

  lemma PushedFirst(rs: Rules, es: seq<Rule>, e: Rule, earlier: Rules)
    requires LastFirst(rs, es, Rules(e, earlier))
    ensures LastFirst(rs, [e] + es, earlier)
  {
    forall j | 0 <= j < RuleCount(rs)
      ensures RuleAt(rs, j) == if j < |es| + 1 then ([e] + es)[|es| - j] else RuleAt(earlier, j - |es| - 1)
    {
      if j >= |es| { assert RuleAt(rs, j) == RuleAt(Rules(e, earlier), j - |es|); }
    }
  }
}
