/** The term rewriter and the tautology checker of the Boyer benchmark. */
module Boyer {
  import opened Common

  /** What is not a pair: a symbol, which stands for a variable, or a number. */
  datatype Atom = Symbol(name: string) | Number(value: int)

  datatype Term = Leaf(atom: Atom) | App(op: string, args: Terms)

  datatype Terms = Nil | Cons(head: Term, tail: Terms)

  /** An association list, the newest binding first. */
  datatype Subst = Empty | Bind(key: Atom, term: Term, rest: Subst)

  /** `sc_assq`. */
  function Assq(a: Atom, s: Subst): Option<Term> {
    match s
    case Empty => None
    case Bind(k, t, rest) => if k == a then Some(t) else Assq(a, rest)
  }

  function ApplySubst(s: Subst, t: Term): Term {
    match t
    case Leaf(a) => (match Assq(a, s) case Some(u) => u case None => t)
    case App(op, args) => App(op, ApplySubstList(s, args))
  }

  function ApplySubstList(s: Subst, ts: Terms): Terms {
    match ts
    case Nil => Nil
    case Cons(t, rest) => Cons(ApplySubst(s, t), ApplySubstList(s, rest))
  }

  // ----- one-way unification

  /** The answer of `one_way_unify1` and the bindings it leaves behind, also when it fails. */
  datatype Match = Match(ok: bool, subst: Subst)

  function Unify(t: Term, p: Term, s: Subst): Match
    decreases p
  {
    match p
    case Leaf(a) =>
      (match Assq(a, s)
       case Some(u) => Match(t == u, s)
       case None => if a.Number? then Match(t == p, s) else Match(true, Bind(a, t, s)))
    case App(op, ps) =>
      if t.App? && t.op == op then UnifyList(t.args, ps, s) else Match(false, s)
  }

  function UnifyList(ts: Terms, ps: Terms, s: Subst): Match
    decreases ps
  {
    match ps
    case Nil => Match(ts.Nil?, s)
    case Cons(p, ps') =>
      if ts.Nil? then Match(false, s)
      else
        var m := Unify(ts.head, p, s);
        if m.ok then UnifyList(ts.tail, ps', m.subst) else m
  }

  /** Every binding of `s` is one of `s'`. */
  ghost predicate Extends(s: Subst, s': Subst) {
    forall a {:trigger Assq(a, s)} {:trigger Assq(a, s')} :: Assq(a, s).Some? ==> Assq(a, s') == Assq(a, s)
  }

  /** Only symbols are bound. */
  ghost predicate Proper(s: Subst) {
    forall n :: Assq(Number(n), s).None?
  }

  lemma {:induction false} UnifyExtends(t: Term, p: Term, s: Subst)
    requires Proper(s)
    ensures Extends(s, Unify(t, p, s).subst) && Proper(Unify(t, p, s).subst)
    decreases p
  {
    if p.App? && t.App? { UnifyListExtends(t.args, p.args, s); }
  }

  lemma {:induction false} UnifyListExtends(ts: Terms, ps: Terms, s: Subst)
    requires Proper(s)
    ensures Extends(s, UnifyList(ts, ps, s).subst) && Proper(UnifyList(ts, ps, s).subst)
    decreases ps
  {
    if ps.Cons? && ts.Cons? {
      UnifyExtends(ts.head, ps.head, s);
      UnifyListExtends(ts.tail, ps.tail, Unify(ts.head, ps.head, s).subst);
    }
  }

  /** All symbols of the pattern are bound. */
  ghost predicate Bound(p: Term, s: Subst) {
    match p
    case Leaf(a) => a.Symbol? ==> Assq(a, s).Some?
    case App(_, ps) => AllBound(ps, s)
  }

  ghost predicate AllBound(ps: Terms, s: Subst) {
    match ps
    case Nil => true
    case Cons(p, rest) => Bound(p, s) && AllBound(rest, s)
  }

  /** Instances of a bound pattern do not change with more bindings. */
  lemma {:induction false} ApplyExtends(p: Term, s: Subst, s': Subst)
    requires Bound(p, s) && Extends(s, s') && Proper(s) && Proper(s')
    ensures Bound(p, s') && ApplySubst(s', p) == ApplySubst(s, p)
  {
    match p
    case Leaf(Number(n)) => assert Assq(Number(n), s).None? && Assq(Number(n), s').None?;
    case Leaf(Symbol(_)) =>
    case App(_, ps) => ApplyListExtends(ps, s, s');
  }

  lemma {:induction false} ApplyListExtends(ps: Terms, s: Subst, s': Subst)
    requires AllBound(ps, s) && Extends(s, s') && Proper(s) && Proper(s')
    ensures AllBound(ps, s') && ApplySubstList(s', ps) == ApplySubstList(s, ps)
  {
    if ps.Cons? {
      ApplyExtends(ps.head, s, s');
      ApplyListExtends(ps.tail, s, s');
    }
  }

  /** A successful match makes the pattern an instance equal to the term. */
  lemma {:induction false} UnifySound(t: Term, p: Term, s: Subst)
    requires Proper(s) && Unify(t, p, s).ok
    ensures Bound(p, Unify(t, p, s).subst) && ApplySubst(Unify(t, p, s).subst, p) == t
    decreases p
  {
    if p.App? { UnifyListSound(t.args, p.args, s); }
  }

  lemma {:induction false} UnifyListSound(ts: Terms, ps: Terms, s: Subst)
    requires Proper(s) && UnifyList(ts, ps, s).ok
    ensures AllBound(ps, UnifyList(ts, ps, s).subst) && ApplySubstList(UnifyList(ts, ps, s).subst, ps) == ts
    decreases ps
  {
    if ps.Cons? {
      var s1 := Unify(ts.head, ps.head, s).subst;
      UnifySound(ts.head, ps.head, s);
      UnifyExtends(ts.head, ps.head, s);
      UnifyListSound(ts.tail, ps.tail, s1);
      UnifyListExtends(ts.tail, ps.tail, s1);
      ApplyExtends(ps.head, s1, UnifyList(ts.tail, ps.tail, s1).subst);
    }
  }

  /** Whenever an instance of the pattern is equal to the term, the match succeeds, and with no more
      bindings than that instance needs. */
  lemma {:induction false} UnifyComplete(t: Term, p: Term, s: Subst, r: Subst)
    requires Proper(s) && Proper(r) && Extends(s, r) && Bound(p, r) && ApplySubst(r, p) == t
    ensures Unify(t, p, s).ok && Extends(Unify(t, p, s).subst, r)
    decreases p
  {
    match p
    case Leaf(Number(n)) => assert Assq(Number(n), s).None? && Assq(Number(n), r).None?;
    case Leaf(Symbol(_)) =>
    case App(_, ps) => UnifyListComplete(t.args, ps, s, r);
  }

  lemma {:induction false} UnifyListComplete(ts: Terms, ps: Terms, s: Subst, r: Subst)
    requires Proper(s) && Proper(r) && Extends(s, r) && AllBound(ps, r) && ApplySubstList(r, ps) == ts
    ensures UnifyList(ts, ps, s).ok && Extends(UnifyList(ts, ps, s).subst, r)
    decreases ps
  {
    if ps.Cons? {
      UnifyComplete(ts.head, ps.head, s, r);
      UnifyExtends(ts.head, ps.head, s);
      UnifyListComplete(ts.tail, ps.tail, Unify(ts.head, ps.head, s).subst, r);
    }
  }

  /** `one_way_unify1` from no bindings succeeds exactly when the term is an instance of the pattern. */
  lemma UnifyIff(t: Term, p: Term)
    ensures Unify(t, p, Empty).ok <==> exists r :: Proper(r) && Bound(p, r) && ApplySubst(r, p) == t
  {
    if Unify(t, p, Empty).ok {
      UnifySound(t, p, Empty);
      UnifyExtends(t, p, Empty);
    } else if r :| Proper(r) && Bound(p, r) && ApplySubst(r, p) == t {
      UnifyComplete(t, p, Empty, r);
    }
  }

  // ----- the meaning of terms

  /** An interpretation of the operators and the numbers over a domain. */
  datatype Structure<!D> = Structure(apply: (string, seq<D>) -> D, number: int -> D)

  function Value<D>(m: Structure<D>, env: string -> D, t: Term): D
    decreases t, 0
  {
    match t
    case Leaf(Symbol(x)) => env(x)
    case Leaf(Number(n)) => m.number(n)
    case App(op, args) => m.apply(op, Values(m, env, args))
  }

  function Values<D>(m: Structure<D>, env: string -> D, ts: Terms): seq<D>
    decreases ts, 1
  {
    match ts
    case Nil => []
    case Cons(t, rest) => [Value(m, env, t)] + Values(m, env, rest)
  }

  /** The environment in which a term means what its instance means in `env`. */
  function Shift<D>(m: Structure<D>, env: string -> D, s: Subst): string -> D {
    x => match Assq(Symbol(x), s) case Some(u) => Value(m, env, u) case None => env(x)
  }

  lemma {:induction false} ValueOfInstance<D>(m: Structure<D>, env: string -> D, s: Subst, t: Term)
    requires Proper(s)
    ensures Value(m, env, ApplySubst(s, t)) == Value(m, Shift(m, env, s), t)
    decreases t, 0
  {
    match t
    case Leaf(Number(n)) => assert Assq(Number(n), s).None?;
    case Leaf(Symbol(_)) =>
    case App(_, args) => ValuesOfInstances(m, env, s, args);
  }

  lemma {:induction false} ValuesOfInstances<D>(m: Structure<D>, env: string -> D, s: Subst, ts: Terms)
    requires Proper(s)
    ensures Values(m, env, ApplySubstList(s, ts)) == Values(m, Shift(m, env, s), ts)
    decreases ts, 1
  {
    if ts.Cons? {
      ValueOfInstance(m, env, s, ts.head);
      ValuesOfInstances(m, env, s, ts.tail);
    }
  }

  // ----- rewriting

  /** A lemma `(equal lhs rhs)`. */
  datatype Rule = Rule(lhs: Term, rhs: Term)

  datatype Rules = NoRules | Rules(first: Rule, others: Rules)

  /** The lemmas stored with each operator. */
  type Lemmas = string -> Rules

  ghost predicate Holds<D(!new)>(m: Structure<D>, r: Rule) {
    forall env :: Value(m, env, r.lhs) == Value(m, env, r.rhs)
  }

  ghost predicate AllHold<D(!new)>(m: Structure<D>, rs: Rules) {
    rs.Rules? ==> Holds(m, rs.first) && AllHold(m, rs.others)
  }

  /** All stored lemmas hold in the structure, whatever the variables stand for. */
  ghost predicate IsModel<D(!new)>(m: Structure<D>, db: Lemmas) {
    forall op :: AllHold(m, db(op))
  }

  /** The right-hand side, instantiated, of the first rule whose left-hand side matches. */
  function FirstMatch(t: Term, rs: Rules): Option<Term> {
    if rs.NoRules? then None
    else
      var m := Unify(t, rs.first.lhs, Empty);
      if m.ok then Some(ApplySubst(m.subst, rs.first.rhs)) else FirstMatch(t, rs.others)
  }

  lemma {:induction false} FirstMatchMeans<D(!new)>(m: Structure<D>, env: string -> D, t: Term, rs: Rules)
    requires AllHold(m, rs) && FirstMatch(t, rs).Some?
    ensures Value(m, env, FirstMatch(t, rs).value) == Value(m, env, t)
  {
    var u := Unify(t, rs.first.lhs, Empty);
    if u.ok {
      UnifySound(t, rs.first.lhs, Empty);
      UnifyExtends(t, rs.first.lhs, Empty);
      ValueOfInstance(m, env, u.subst, rs.first.lhs);
      ValueOfInstance(m, env, u.subst, rs.first.rhs);
    } else {
      FirstMatchMeans(m, env, t, rs.others);
    }
  }

  /** A rewritten term or terms, with the number of calls of `rewrite` that it took. */
  datatype Rewritten<T> = Rewritten(result: T, calls: nat)

  /** `rewrite`, to at most `fuel` replacements in a row; `None` when that is not enough. */
  function Rewrite(db: Lemmas, t: Term, fuel: nat): Option<Rewritten<Term>>
    decreases fuel, t, 0
  {
    if t.Leaf? then Some(Rewritten(t, 1))
    else
      match RewriteArgs(db, t.args, fuel)
      case None => None
      case Some(Rewritten(args, n)) =>
        match FirstMatch(App(t.op, args), db(t.op))
        case None => Some(Rewritten(App(t.op, args), n + 1))
        case Some(u) =>
          if fuel == 0 then None
          else
            match Rewrite(db, u, fuel - 1)
            case None => None
            case Some(Rewritten(r, k)) => Some(Rewritten(r, n + 1 + k))
  }

  function RewriteArgs(db: Lemmas, ts: Terms, fuel: nat): Option<Rewritten<Terms>>
    decreases fuel, ts, 1
  {
    if ts.Nil? then Some(Rewritten(Nil, 0))
    else
      match Rewrite(db, ts.head, fuel)
      case None => None
      case Some(Rewritten(t, n)) =>
        match RewriteArgs(db, ts.tail, fuel)
        case None => None
        case Some(Rewritten(rest, k)) => Some(Rewritten(Cons(t, rest), n + k))
  }

  /** Rewriting preserves meaning: in every structure where all lemmas hold, whatever `rewrite`
      returns has the value of the term it was given. */
  lemma {:induction false} RewriteMeans<D(!new)>(m: Structure<D>, env: string -> D, db: Lemmas, t: Term, fuel: nat)
    requires IsModel(m, db) && Rewrite(db, t, fuel).Some?
    ensures Value(m, env, Rewrite(db, t, fuel).value.result) == Value(m, env, t)
    decreases fuel, t, 0
  {
    if t.App? {
      RewriteArgsMean(m, env, db, t.args, fuel);
      var t' := App(t.op, RewriteArgs(db, t.args, fuel).value.result);
      match FirstMatch(t', db(t.op)) {
        case None =>
        case Some(u) =>
          assert AllHold(m, db(t.op));
          FirstMatchMeans(m, env, t', db(t.op));
          RewriteMeans(m, env, db, u, fuel - 1);
      }
    }
  }

  lemma {:induction false} RewriteArgsMean<D(!new)>(m: Structure<D>, env: string -> D, db: Lemmas, ts: Terms, fuel: nat)
    requires IsModel(m, db) && RewriteArgs(db, ts, fuel).Some?
    ensures Values(m, env, RewriteArgs(db, ts, fuel).value.result) == Values(m, env, ts)
    decreases fuel, ts, 1
  {
    if ts.Cons? {
      RewriteMeans(m, env, db, ts.head, fuel);
      RewriteArgsMean(m, env, db, ts.tail, fuel);
    }
  }

  /** The fuel only decides whether there is an answer, never which one. */
  lemma {:induction false} MoreFuel(db: Lemmas, t: Term, fuel: nat, more: nat)
    requires fuel <= more && Rewrite(db, t, fuel).Some?
    ensures Rewrite(db, t, more) == Rewrite(db, t, fuel)
    decreases fuel, t, 0
  {
    if t.App? {
      MoreFuelArgs(db, t.args, fuel, more);
      var t' := App(t.op, RewriteArgs(db, t.args, fuel).value.result);
      if FirstMatch(t', db(t.op)).Some? {
        MoreFuel(db, FirstMatch(t', db(t.op)).value, fuel - 1, more - 1);
      }
    }
  }

  lemma {:induction false} MoreFuelArgs(db: Lemmas, ts: Terms, fuel: nat, more: nat)
    requires fuel <= more && RewriteArgs(db, ts, fuel).Some?
    ensures RewriteArgs(db, ts, more) == RewriteArgs(db, ts, fuel)
    decreases fuel, ts, 1
  {
    if ts.Cons? {
      MoreFuel(db, ts.head, fuel, more);
      MoreFuelArgs(db, ts.tail, fuel, more);
    }
  }

  /** What `rewrite` returns is a normal form: rewriting it again changes nothing. */
  predicate Normal(db: Lemmas, t: Term) {
    match t
    case Leaf(_) => true
    case App(op, args) => AllNormal(db, args) && FirstMatch(t, db(op)).None?
  }

  predicate AllNormal(db: Lemmas, ts: Terms) {
    ts.Cons? ==> Normal(db, ts.head) && AllNormal(db, ts.tail)
  }

  lemma {:induction false} RewriteNormal(db: Lemmas, t: Term, fuel: nat)
    requires Rewrite(db, t, fuel).Some?
    ensures Normal(db, Rewrite(db, t, fuel).value.result)
    decreases fuel, t, 0
  {
    if t.App? {
      RewriteArgsNormal(db, t.args, fuel);
      var t' := App(t.op, RewriteArgs(db, t.args, fuel).value.result);
      if FirstMatch(t', db(t.op)).Some? {
        RewriteNormal(db, FirstMatch(t', db(t.op)).value, fuel - 1);
      }
    }
  }

  lemma {:induction false} RewriteArgsNormal(db: Lemmas, ts: Terms, fuel: nat)
    requires RewriteArgs(db, ts, fuel).Some?
    ensures AllNormal(db, RewriteArgs(db, ts, fuel).value.result)
    decreases fuel, ts, 1
  {
    if ts.Cons? {
      RewriteNormal(db, ts.head, fuel);
      RewriteArgsNormal(db, ts.tail, fuel);
    }
  }

  // ----- storing the lemmas

  /** `add-lemma`: a term `(equal (f ...) rhs)` is put in front of the lemmas of `f`. */
  function AddLemma(db: Lemmas, t: Term): Option<Lemmas> {
    match t
    case App("equal", Cons(App(f, args), Cons(rhs, _))) =>
      Some(op => if op == f then Rules(Rule(App(f, args), rhs), db(f)) else db(op))
    case _ => None
  }

  function Setup(db: Lemmas, ts: Terms): Option<Lemmas>
    decreases ts
  {
    match ts
    case Nil => Some(db)
    case Cons(t, rest) => (match AddLemma(db, t) case None => None case Some(db') => Setup(db', rest))
  }

  function NoLemmas(op: string): Rules {
    NoRules
  }

  /** The two sides of an equation have the same value, whatever the variables stand for. */
  ghost predicate Valid<D(!new)>(m: Structure<D>, t: Term) {
    t.App? && t.args.Cons? && t.args.tail.Cons? && Holds(m, Rule(t.args.head, t.args.tail.head))
  }

  ghost predicate AllValid<D(!new)>(m: Structure<D>, ts: Terms) {
    ts.Cons? ==> Valid(m, ts.head) && AllValid(m, ts.tail)
  }

  /** The models of the stored lemmas are exactly the structures in which the given equations hold. */
  lemma {:induction false} SetupModels<D(!new)>(m: Structure<D>, db: Lemmas, ts: Terms)
    requires Setup(db, ts).Some?
    ensures IsModel(m, Setup(db, ts).value) <==> IsModel(m, db) && AllValid(m, ts)
    decreases ts
  {
    if ts.Cons? {
      var db' := AddLemma(db, ts.head).value;
      SetupModels(m, db', ts.tail);
      AddLemmaModels(m, db, ts.head);
    }
  }

  lemma AddLemmaModels<D(!new)>(m: Structure<D>, db: Lemmas, t: Term)
    requires AddLemma(db, t).Some?
    ensures IsModel(m, AddLemma(db, t).value) <==> IsModel(m, db) && Valid(m, t)
  {
    var db', f := AddLemma(db, t).value, t.args.head.op;
    assert db'(f) == Rules(Rule(t.args.head, t.args.tail.head), db(f));
    if IsModel(m, db') {
      forall op ensures AllHold(m, db(op)) { assert AllHold(m, db'(op)) && AllHold(m, db'(f)); }
      assert AllHold(m, db'(f));
    }
  }

  // ----- tautologies

  const TRUE := App("t", Nil)
  const FALSE := App("f", Nil)

  predicate Member(x: Term, ts: Terms) {
    ts.Cons? && (x == ts.head || Member(x, ts.tail))
  }

  predicate Truep(x: Term, ts: Terms) {
    x == TRUE || Member(x, ts)
  }

  predicate Falsep(x: Term, ts: Terms) {
    x == FALSE || Member(x, ts)
  }

  predicate IsIf(x: Term) {
    x.App? && x.op == "if"
  }

  function Nth(ts: Terms, n: nat): Option<Term> {
    match ts
    case Nil => None
    case Cons(t, rest) => if n == 0 then Some(t) else Nth(rest, n - 1)
  }

  lemma NthSmaller(ts: Terms, n: nat)
    requires Nth(ts, n).Some?
    ensures Nth(ts, n).value < ts
  {
  }

  /** `tautologyp` under lists of terms taken for true and for false; `None` when a part of an
      if-term that is looked at is missing. */
  function Tautology(x: Term, trues: Terms, falses: Terms): Option<bool>
    decreases x
  {
    if Truep(x, trues) then Some(true)
    else if Falsep(x, falses) || !IsIf(x) then Some(false)
    else
      match Nth(x.args, 0)
      case None => None
      case Some(c) =>
        if Truep(c, trues) then Branch(x, 1, trues, falses)
        else if Falsep(c, falses) then Branch(x, 2, trues, falses)
        else
          match Branch(x, 1, Cons(c, trues), falses)
          case Some(true) => Branch(x, 2, trues, Cons(c, falses))
          case r => r
  }

  function Branch(x: Term, n: nat, trues: Terms, falses: Terms): Option<bool>
    requires x.App?
    decreases x, 0
  {
    match Nth(x.args, n)
    case None => None
    case Some(y) => NthSmaller(x.args, n); Tautology(y, trues, falses)
  }

  /** The structure reads `if` as the conditional; every value but that of `(f)` counts as true. */
  ghost predicate Conditional<D(!new)>(m: Structure<D>) {
    m.apply("t", []) != m.apply("f", []) &&
    (forall vs :: |vs| >= 2 && vs[0] != m.apply("f", []) ==> m.apply("if", vs) == vs[1]) &&
    (forall vs :: |vs| >= 3 && vs[0] == m.apply("f", []) ==> m.apply("if", vs) == vs[2])
  }

  ghost predicate IsTrue<D>(m: Structure<D>, env: string -> D, x: Term) {
    Value(m, env, x) != m.apply("f", [])
  }

  ghost predicate Assumed<D>(m: Structure<D>, env: string -> D, trues: Terms, falses: Terms) {
    (forall x :: Member(x, trues) ==> IsTrue(m, env, x)) && (forall x :: Member(x, falses) ==> !IsTrue(m, env, x))
  }

  lemma {:induction false} NthValue<D>(m: Structure<D>, env: string -> D, ts: Terms, n: nat)
    requires Nth(ts, n).Some?
    ensures n < |Values(m, env, ts)| && Values(m, env, ts)[n] == Value(m, env, Nth(ts, n).value)
  {
    if n > 0 { NthValue(m, env, ts.tail, n - 1); }
  }

  /** What `tautologyp` accepts is true wherever the assumed terms are as assumed. */
  lemma {:induction false} TautologySound<D(!new)>(m: Structure<D>, env: string -> D, x: Term, trues: Terms, falses: Terms)
    requires Conditional(m) && Assumed(m, env, trues, falses) && Tautology(x, trues, falses) == Some(true)
    ensures IsTrue(m, env, x)
    decreases x
  {
    if !Truep(x, trues) {
      var c := Nth(x.args, 0).value;
      NthValue(m, env, x.args, 0);
      if IsTrue(m, env, c) {
        var a := Nth(x.args, 1).value;
        NthSmaller(x.args, 1);
        NthValue(m, env, x.args, 1);
        TautologySound(m, env, a, if Truep(c, trues) then trues else Cons(c, trues), falses);
      } else {
        var b := Nth(x.args, 2).value;
        NthSmaller(x.args, 2);
        NthValue(m, env, x.args, 2);
        TautologySound(m, env, b, trues, if Falsep(c, falses) then falses else Cons(c, falses));
      }
    }
  }

  // ----- exactness

  /** The truth value of an if-term when the other terms have the truth values `v`. */
  predicate Holding(v: Term -> bool, x: Term)
    decreases x
  {
    if x == TRUE then true
    else if x == FALSE then false
    else if IsIf(x) && Nth(x.args, 2).Some? then
      NthBefore(x.args, 2);
      NthSmaller(x.args, 0);
      NthSmaller(x.args, 1);
      NthSmaller(x.args, 2);
      if Holding(v, Nth(x.args, 0).value) then Holding(v, Nth(x.args, 1).value) else Holding(v, Nth(x.args, 2).value)
    else v(x)
  }

  lemma NthBefore(ts: Terms, n: nat)
    requires Nth(ts, n).Some?
    ensures forall k :: 0 <= k < n ==> Nth(ts, k).Some?
  {
  }

  /** If-terms have three parts and no test is an if-term. */
  predicate Simple(x: Term)
    decreases x
  {
    IsIf(x) ==>
      Nth(x.args, 2).Some? &&
      (NthBefore(x.args, 2); NthSmaller(x.args, 1); NthSmaller(x.args, 2);
       !IsIf(Nth(x.args, 0).value) && Simple(Nth(x.args, 1).value) && Simple(Nth(x.args, 2).value))
  }

  ghost predicate Agrees(v: Term -> bool, trues: Terms, falses: Terms) {
    (forall x :: Member(x, trues) ==> Holding(v, x)) && (forall x :: Member(x, falses) ==> !Holding(v, x))
  }

  /** No if-term is assumed, and nothing is assumed both true and false. */
  ghost predicate Consistent(trues: Terms, falses: Terms) {
    (forall x :: Member(x, trues) ==> !IsIf(x) && x != FALSE && !Member(x, falses)) &&
    (forall x :: Member(x, falses) ==> !IsIf(x) && x != TRUE)
  }

  /** An accepted if-term holds under every assignment that agrees with the assumptions. */
  lemma {:induction false} Accepted(x: Term, trues: Terms, falses: Terms, v: Term -> bool)
    requires Simple(x) && Tautology(x, trues, falses) == Some(true) && Agrees(v, trues, falses)
    ensures Holding(v, x)
    decreases x
  {
    if !Truep(x, trues) {
      NthBefore(x.args, 2);
      var c, a, b := Nth(x.args, 0).value, Nth(x.args, 1).value, Nth(x.args, 2).value;
      NthSmaller(x.args, 1);
      NthSmaller(x.args, 2);
      if Holding(v, c) {
        Accepted(a, if Truep(c, trues) then trues else Cons(c, trues), falses, v);
      } else {
        Accepted(b, trues, if Falsep(c, falses) then falses else Cons(c, falses), v);
      }
    }
  }

  /** A rejected if-term fails under some assignment that agrees with the assumptions. */
  lemma {:induction false} Rejected(x: Term, trues: Terms, falses: Terms) returns (v: Term -> bool)
    requires Simple(x) && Consistent(trues, falses) && Tautology(x, trues, falses) != Some(true)
    ensures Agrees(v, trues, falses) && !Holding(v, x)
    decreases x
  {
    if Falsep(x, falses) || !IsIf(x) {
      v := y => Member(y, trues);
    } else {
      NthBefore(x.args, 2);
      var c, a, b := Nth(x.args, 0).value, Nth(x.args, 1).value, Nth(x.args, 2).value;
      NthSmaller(x.args, 1);
      NthSmaller(x.args, 2);
      if Truep(c, trues) {
        v := Rejected(a, trues, falses);
      } else if Falsep(c, falses) {
        v := Rejected(b, trues, falses);
      } else if Tautology(a, Cons(c, trues), falses) != Some(true) {
        v := Rejected(a, Cons(c, trues), falses);
        assert Member(c, Cons(c, trues));
      } else {
        v := Rejected(b, trues, Cons(c, falses));
        assert Member(c, Cons(c, falses));
      }
    }
  }

  /** On if-terms without nested tests `tautologyp` decides validity. */
  lemma TautologyIff(x: Term)
    requires Simple(x)
    ensures Tautology(x, Nil, Nil) == Some(true) <==> forall v :: Holding(v, x)
  {
    if Tautology(x, Nil, Nil) == Some(true) {
      forall v ensures Holding(v, x) { Accepted(x, Nil, Nil, v); }
    } else {
      var v := Rejected(x, Nil, Nil);
    }
  }

  /** With a nested test it does not: `(if (if a (t) (t)) (t) (f))` always holds and is rejected. */
  lemma NestedTestRejected()
    ensures var a := Leaf(Symbol("a"));
            var test := App("if", Cons(a, Cons(TRUE, Cons(TRUE, Nil))));
            var x := App("if", Cons(test, Cons(TRUE, Cons(FALSE, Nil))));
            Tautology(x, Nil, Nil) == Some(false) && forall v :: Holding(v, x)
  {
    var a := Leaf(Symbol("a"));
    var test := App("if", Cons(a, Cons(TRUE, Cons(TRUE, Nil))));
    var x := App("if", Cons(test, Cons(TRUE, Cons(FALSE, Nil))));
    assert Nth(test.args, 0) == Some(a) && Nth(test.args, 1) == Some(TRUE) && Nth(test.args, 2) == Some(TRUE);
    assert Nth(x.args, 0) == Some(test) && Nth(x.args, 1) == Some(TRUE) && Nth(x.args, 2) == Some(FALSE);
    assert forall v :: Holding(v, test);
  }

  // ----- which if-terms are accepted, nested tests or not

  /** The truth value that an assignment gives to a term as it stands. */
  predicate Told(v: Term -> bool, x: Term) {
    x == TRUE || (x != FALSE && v(x))
  }

  /** Follow the branches of an if-term: a test is taken as it stands and not looked into, and so is a branch
      that has been met as a test on the way, or that is no if-term. A missing part does not hold. */
  predicate PathHolds(v: Term -> bool, x: Term, met: Terms)
    decreases x
  {
    if x == TRUE || x == FALSE || Member(x, met) || !IsIf(x) then Told(v, x)
    else
      match Nth(x.args, 0)
      case None => false
      case Some(c) =>
        var n := if Told(v, c) then 1 else 2;
        Nth(x.args, n).Some? && (NthSmaller(x.args, n); PathHolds(v, Nth(x.args, n).value, Cons(c, met)))
  }

  /** The tests met are those assumed true and those assumed false, the constants aside. */
  ghost predicate MetAre(met: Terms, trues: Terms, falses: Terms) {
    (forall x :: x != TRUE && x != FALSE ==> (Member(x, met) <==> Member(x, trues) || Member(x, falses))) &&
    (forall x :: Member(x, trues) ==> x != FALSE && !Member(x, falses)) && !Member(TRUE, falses)
  }

  ghost predicate Tells(v: Term -> bool, trues: Terms, falses: Terms) {
    (forall x :: Member(x, trues) ==> Told(v, x)) && (forall x :: Member(x, falses) ==> !Told(v, x))
  }

  lemma MetMore(c: Term, met: Terms, trues: Terms, falses: Terms)
    requires MetAre(met, trues, falses)
    ensures Truep(c, trues) || Falsep(c, falses) ==> MetAre(Cons(c, met), trues, falses)
    ensures !Truep(c, trues) && !Falsep(c, falses) ==> MetAre(Cons(c, met), Cons(c, trues), falses) && MetAre(Cons(c, met), trues, Cons(c, falses))
  {
    assert forall x, ts :: Member(x, Cons(c, ts)) <==> x == c || Member(x, ts);
  }

  lemma {:induction false} PathAccepted(x: Term, trues: Terms, falses: Terms, met: Terms, v: Term -> bool)
    requires MetAre(met, trues, falses) && Tells(v, trues, falses) && Tautology(x, trues, falses) == Some(true)
    ensures PathHolds(v, x, met)
    decreases x
  {
    if !Truep(x, trues) {
      var c := Nth(x.args, 0).value;
      MetMore(c, met, trues, falses);
      assert (Truep(c, trues) ==> Told(v, c)) && (Falsep(c, falses) ==> !Told(v, c));
      hide MetAre;
      if Told(v, c) {
        NthSmaller(x.args, 1);
        PathAccepted(Nth(x.args, 1).value, if Truep(c, trues) then trues else Cons(c, trues), falses, Cons(c, met), v);
      } else {
        NthSmaller(x.args, 2);
        PathAccepted(Nth(x.args, 2).value, trues, if Falsep(c, falses) then falses else Cons(c, falses), Cons(c, met), v);
      }
    }
  }

  /** Following the branches comes to a part that is missing. */
  predicate PathMissing(v: Term -> bool, x: Term, met: Terms)
    decreases x
  {
    x != TRUE && x != FALSE && !Member(x, met) && IsIf(x) &&
    match Nth(x.args, 0)
    case None => true
    case Some(c) =>
      var n := if Told(v, c) then 1 else 2;
      Nth(x.args, n).Some? ==> (NthSmaller(x.args, n); PathMissing(v, Nth(x.args, n).value, Cons(c, met)))
  }

  lemma {:induction false} PathOfAnswer(x: Term, trues: Terms, falses: Terms, met: Terms) returns (v: Term -> bool)
    requires MetAre(met, trues, falses) && Tautology(x, trues, falses) != Some(true)
    ensures Tells(v, trues, falses) && !PathHolds(v, x, met) && (PathMissing(v, x, met) <==> Tautology(x, trues, falses).None?)
    decreases x
  {
    v := y => Member(y, trues);
    if !Falsep(x, falses) && IsIf(x) && Nth(x.args, 0).Some? {
      var c := Nth(x.args, 0).value;
      MetMore(c, met, trues, falses);
      if Truep(c, trues) {
        v := PathOfBranch(x, 1, trues, falses, Cons(c, met));
      } else if Falsep(c, falses) {
        v := PathOfBranch(x, 2, trues, falses, Cons(c, met));
      } else if Branch(x, 1, Cons(c, trues), falses) != Some(true) {
        v := PathOfBranch(x, 1, Cons(c, trues), falses, Cons(c, met));
        assert Member(c, Cons(c, trues));
      } else {
        v := PathOfBranch(x, 2, trues, Cons(c, falses), Cons(c, met));
        assert Member(c, Cons(c, falses));
      }
    }
  }

  lemma {:induction false} PathOfBranch(x: Term, n: nat, trues: Terms, falses: Terms, met: Terms) returns (v: Term -> bool)
    requires x.App? && MetAre(met, trues, falses) && Branch(x, n, trues, falses) != Some(true)
    ensures Tells(v, trues, falses) && (Nth(x.args, n).Some? ==> !PathHolds(v, Nth(x.args, n).value, met))
    ensures Nth(x.args, n).Some? ==> (PathMissing(v, Nth(x.args, n).value, met) <==> Branch(x, n, trues, falses).None?)
    decreases x, 0
  {
    v := y => Member(y, trues);
    if Nth(x.args, n).Some? {
      NthSmaller(x.args, n);
      v := PathOfAnswer(Nth(x.args, n).value, trues, falses, met);
    }
  }

  /** The term holds along its branches whatever the truth values of the terms met there. */
  ghost predicate HoldsAlways(x: Term) {
    forall v :: PathHolds(v, x, Nil)
  }

  /** For every term: `tautologyp` accepts it if and only if it holds along its branches whatever the truth
      values of the terms met there, each taken as it stands. */
  lemma TautologyExact(x: Term)
    ensures Tautology(x, Nil, Nil) == Some(true) <==> HoldsAlways(x)
  {
    if Tautology(x, Nil, Nil) == Some(true) {
      forall v ensures PathHolds(v, x, Nil) { PathAccepted(x, Nil, Nil, Nil, v); }
    } else {
      var v := PathOfAnswer(x, Nil, Nil, Nil);
    }
  }

  /** A term is rejected only when it fails along some branches with nothing missing, and `tautologyp` has no
      answer only when a part is missing along some branches. */
  lemma TautologyFails(x: Term)
    ensures Tautology(x, Nil, Nil) == Some(false) ==> exists v :: !PathHolds(v, x, Nil) && !PathMissing(v, x, Nil)
    ensures Tautology(x, Nil, Nil) == None ==> exists v :: PathMissing(v, x, Nil)
  {
    if Tautology(x, Nil, Nil) != Some(true) {
      var v := PathOfAnswer(x, Nil, Nil, Nil);
    }
  }

  /** Every if-term in it has three parts. */
  predicate Whole(x: Term) {
    match x
    case Leaf(_) => true
    case App(op, args) => AllWhole(args) && (op == "if" ==> Nth(args, 2).Some?)
  }

  predicate AllWhole(ts: Terms) {
    ts.Cons? ==> Whole(ts.head) && AllWhole(ts.tail)
  }

  lemma {:induction false} NthWhole(ts: Terms, n: nat)
    requires AllWhole(ts) && Nth(ts, n).Some?
    ensures Whole(Nth(ts, n).value)
  {
    if n > 0 { NthWhole(ts.tail, n - 1); }
  }

  lemma {:induction false} NothingMissing(v: Term -> bool, x: Term, met: Terms)
    requires Whole(x)
    ensures !PathMissing(v, x, met)
    decreases x
  {
    if IsIf(x) {
      NthBefore(x.args, 2);
      var c := Nth(x.args, 0).value;
      var n := if Told(v, c) then 1 else 2;
      NthWhole(x.args, n);
      NthSmaller(x.args, n);
      NothingMissing(v, Nth(x.args, n).value, Cons(c, met));
    }
  }

  /** On terms without a missing part there is always an answer: yes if the term holds along its branches
      whatever the truth values of the terms met there, and else no. */
  lemma TautologyDecides(x: Term)
    requires Whole(x)
    ensures Tautology(x, Nil, Nil) == Some(true) || Tautology(x, Nil, Nil) == Some(false)
    ensures Tautology(x, Nil, Nil) == Some(true) <==> HoldsAlways(x)
  {
    TautologyExact(x);
    TautologyFails(x);
    match Tautology(x, Nil, Nil)
    case None =>
      var v :| PathMissing(v, x, Nil);
      NothingMissing(v, x, Nil);
    case Some(b) => assert b || !b;
  }

  // ----- the program

  /** `(or (or ... t (f)) (f))` with `n` disjunctions. */
  function Ors(t: Term, n: nat): Term
    decreases n
  {
    if n == 0 then t else Ors(App("or", Cons(t, Cons(FALSE, Nil))), n - 1)
  }

  function Size(t: Term): nat {
    match t
    case Leaf(_) => 0
    case App(_, args) => 1 + Sizes(args)
  }

  function Sizes(ts: Terms): nat {
    match ts
    case Nil => 0
    case Cons(t, rest) => 1 + Size(t) + Sizes(rest)
  }

  /** A term is proved: it is true in every structure that satisfies the lemmas and reads `if` as
      the conditional, whatever its variables stand for. */
  ghost predicate Proved<D(!new)>(m: Structure<D>, db: Lemmas, t: Term) {
    Conditional(m) && IsModel(m, db) ==> forall env :: IsTrue(m, env, t)
  }

  /** When the normal form of a term is accepted, the term is proved. */
  lemma ProverSound<D(!new)>(m: Structure<D>, db: Lemmas, t: Term, fuel: nat)
    requires Rewrite(db, t, fuel).Some? && Tautology(Rewrite(db, t, fuel).value.result, Nil, Nil) == Some(true)
    ensures Proved(m, db, t)
  {
    if Conditional(m) && IsModel(m, db) {
      forall env ensures IsTrue(m, env, t) {
        RewriteMeans(m, env, db, t, fuel);
        TautologySound(m, env, Rewrite(db, t, fuel).value.result, Nil, Nil);
      }
    }
  }

  /** The number of rewrites when the instance of the statement is accepted, `Some(None)` when it is
      not, and `None` when there is no answer. */
  function Test(db: Lemmas, statement: Term, alist: Subst, n: nat, fuel: nat): Option<Option<nat>> {
    match Rewrite(db, ApplySubst(alist, Ors(statement, n)), fuel)
    case None => None
    case Some(Rewritten(t, calls)) =>
      match Tautology(t, Nil, Nil)
      case None => None
      case Some(ok) => if ok then Some(Some(calls)) else Some(None)
  }

  /** A positive answer is a proof: in every structure in which the lemmas given to the set-up hold
      and `if` is the conditional, the statement is true for the terms put in for its variables. */
  lemma TestSound<D(!new)>(m: Structure<D>, env: string -> D, lemmas: Terms, statement: Term, alist: Subst, n: nat, fuel: nat)
    requires Setup(NoLemmas, lemmas).Some? && Proper(alist)
    requires Test(Setup(NoLemmas, lemmas).value, statement, alist, n, fuel).Some?
    requires Test(Setup(NoLemmas, lemmas).value, statement, alist, n, fuel).value.Some?
    requires Conditional(m) && AllValid(m, lemmas)
    ensures IsTrue(m, Shift(m, env, alist), Ors(statement, n))
  {
    var db := Setup(NoLemmas, lemmas).value;
    SetupModels(m, NoLemmas, lemmas);
    ProverSound(m, db, ApplySubst(alist, Ors(statement, n)), fuel);
    ValueOfInstance(m, env, alist, Ors(statement, n));
    assert IsTrue(m, env, ApplySubst(alist, Ors(statement, n)));
  }

  class Prover {
    var lemmas: Lemmas
    var unifySubst: Subst
    var rewriteCount: nat

    /** Match a term with a pattern, adding to the bindings so far. */
    method OneWayUnify1(t: Term, p: Term) returns (ok: bool)
      modifies `unifySubst
      ensures Match(ok, unifySubst) == Unify(t, p, old(unifySubst))
      decreases Size(p)
    {
      match p {
        case Leaf(a) =>
          match Assq(a, unifySubst) {
            case Some(u) => return t == u;
            case None =>
              if a.Number? {
                return t == p;
              }
              unifySubst := Bind(a, t, unifySubst);
              return true;
          }
        case App(op, args) =>
          if t.Leaf? || t.op != op {
            return false;
          }
          var lst1, lst2 := t.args, args;
          while true
            invariant Sizes(lst2) <= Sizes(args)
            invariant UnifyList(lst1, lst2, unifySubst) == UnifyList(t.args, args, old(unifySubst))
            decreases Sizes(lst2)
          {
            if lst1.Nil? {
              return lst2.Nil?;
            } else if lst2.Nil? {
              return false;
            }
            var one := OneWayUnify1(lst1.head, lst2.head);
            if !one {
              return false;
            }
            lst1, lst2 := lst1.tail, lst2.tail;
          }
      }
    }

    /** Rewrite a term to normal form, counting the calls. */
    method RewriteTerm(t: Term, fuel: nat) returns (r: Option<Term>)
      modifies `unifySubst, `rewriteCount
      ensures match Rewrite(lemmas, t, fuel)
              case None => r == None
              case Some(Rewritten(u, n)) => r == Some(u) && rewriteCount == old(rewriteCount) + n
      decreases fuel, t, 0
    {
      rewriteCount := rewriteCount + 1;
      if t.Leaf? {
        return Some(t);
      }
      var args := RewriteTerms(t.args, fuel);
      if args.None? {
        return None;
      }
      var t', lst := App(t.op, args.value), lemmas(t.op);
      ghost var count := rewriteCount;
      while true
        invariant FirstMatch(t', lst) == FirstMatch(t', lemmas(t.op)) && rewriteCount == count
        decreases lst
      {
        if lst.NoRules? {
          return Some(t');
        }
        unifySubst := Empty;
        var ok := OneWayUnify1(t', lst.first.lhs);
        if ok {
          var u := ApplySubst(unifySubst, lst.first.rhs);
          if fuel == 0 {
            return None;
          }
          r := RewriteTerm(u, fuel - 1);
          return;
        }
        lst := lst.others;
      }
    }

    method RewriteTerms(ts: Terms, fuel: nat) returns (r: Option<Terms>)
      modifies `unifySubst, `rewriteCount
      ensures match RewriteArgs(lemmas, ts, fuel)
              case None => r == None
              case Some(Rewritten(us, n)) => r == Some(us) && rewriteCount == old(rewriteCount) + n
      decreases fuel, ts, 1
    {
      if ts.Nil? {
        return Some(Nil);
      }
      var t := RewriteTerm(ts.head, fuel);
      if t.None? {
        return None;
      }
      var rest := RewriteTerms(ts.tail, fuel);
      return if rest.None? then None else Some(Cons(t.value, rest.value));
    }

    /** Is an if-term accepted? The loop goes on with the branch that is left to decide. */
    method Tautologyp(x0: Term, trues0: Terms, falses0: Terms) returns (r: Option<bool>)
      ensures r == Tautology(x0, trues0, falses0)
      decreases x0
    {
      var x, trues, falses := x0, trues0, falses0;
      while true
        invariant Tautology(x, trues, falses) == Tautology(x0, trues0, falses0)
        invariant x == x0 || x < x0
        decreases x
      {
        if Truep(x, trues) {
          return Some(true);
        } else if Falsep(x, falses) || x.Leaf? || x.op != "if" {
          return Some(false);
        }
        var c := Nth(x.args, 0);
        if c.None? {
          return None;
        } else if Truep(c.value, trues) {
          var a := Nth(x.args, 1);
          if a.None? {
            return None;
          }
          NthSmaller(x.args, 1);
          x := a.value;
        } else if Falsep(c.value, falses) {
          var b := Nth(x.args, 2);
          if b.None? {
            return None;
          }
          NthSmaller(x.args, 2);
          x := b.value;
        } else {
          var a, b := Nth(x.args, 1), Nth(x.args, 2);
          if a.None? {
            return None;
          }
          NthSmaller(x.args, 1);
          var first := Tautologyp(a.value, Cons(c.value, trues), falses);
          if first != Some(true) {
            return first;
          } else if b.None? {
            return None;
          }
          NthSmaller(x.args, 2);
          falses := Cons(c.value, falses);
          x := b.value;
        }
      }
    }

    /** The benchmark, for an arbitrary statement and arbitrary terms for its variables. */
    method TestBoyer(statement: Term, alist: Subst, n: nat, fuel: nat) returns (answer: Option<Option<nat>>)
      modifies `unifySubst, `rewriteCount
      ensures answer == Test(lemmas, statement, alist, n, fuel)
    {
      rewriteCount := 0;
      var term, k := statement, n;
      while k != 0
        invariant Ors(term, k) == Ors(statement, n)
      {
        term := App("or", Cons(term, Cons(FALSE, Nil)));
        k := k - 1;
      }
      var r := RewriteTerm(ApplySubst(alist, term), fuel);
      if r.None? {
        return None;
      }
      var ok := Tautologyp(r.value, Nil, Nil);
      if ok.None? {
        return None;
      } else if ok.value {
        return Some(Some(rewriteCount));
      } else {
        return Some(None);
      }
    }
  }
}
