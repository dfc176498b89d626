/** Derivations under the names that the Earley benchmark prints: a head and the number of the rule within
    its definition. */
module EarleyNames {
  import opened Common
  import opened EarleyGrammar
  import opened EarleySource

  datatype NamedTree = Named(head: string, number: nat, kids: NamedTrees)

  datatype NamedTrees = NoTrees | Then(head: NamedTree, tail: NamedTrees)

  /** A token has the number zero, the first rule of a definition the number one. */
  function NameTree(defs: seq<Def>, t: Derivation): NamedTree {
    match t
    case Word(x) => Named(x, 0, NoTrees)
    case Use(d, k, parts) => Named(if d < |defs| then defs[d].head else "", k + 1, NameTrees(defs, parts))
  }

  function NameTrees(defs: seq<Def>, ts: Derivations): NamedTrees {
    match ts
    case End => NoTrees
    case And(t, rest) => Then(NameTree(defs, t), NameTrees(defs, rest))
  }

  /** The names are those in the table that the trees are printed from. */
  lemma NamesInTable(
    defs: seq<Def>, input: seq<seq<string>>, nts: seq<string>, rules: seq<Rule>, toks: seq<seq<nat>>, t: Tables, d: nat, k: nat, parts: Derivations, x: nat
  )
    requires Numbering(defs, input, nts, rules, toks) && Layout(|nts|, rules, t) && d < |defs| && k < |defs[d].rules| && x < |nts|
    ensures Place(defs, d, k) < |rules| && var c := Base(|nts|, rules, Place(defs, d, k)); c < |t.names| && Prints(nts, t.names[c], NameTree(defs, Use(d, k, parts)))
    ensures x < |t.names| && Prints(nts, t.names[x], NameTree(defs, Word(nts[x])))
  {
    assert RuleIs(nts, rules[Place(defs, d, k)], defs[d].head, defs[d].rules[k], k + 1);
    assert Dot(|nts|, rules, Place(defs, d, k), 0) == Base(|nts|, rules, Place(defs, d, k));
  }

  /** An entry of the table is a name. */
  predicate Prints(nts: seq<string>, entry: Option<(nat, nat)>, name: NamedTree) {
    entry.Some? && entry.value.0 < |nts| && nts[entry.value.0] == name.head && entry.value.1 == name.number
  }

  // ----- rules that nothing in a named tree tells apart

  /** Two definitions of one head have the same right-hand side at number `k`. */
  predicate Twins(defs: seq<Def>, d: nat, e: nat, k: nat) {
    d < |defs| && e < |defs| && d != e && defs[d].head == defs[e].head &&
    k < |defs[d].rules| && k < |defs[e].rules| && defs[d].rules[k] == defs[e].rules[k]
  }

  predicate HasTwin(defs: seq<Def>, d: nat, k: nat) {
    exists e: nat :: e < |defs| && Twins(defs, d, e, k)
  }

  predicate UsesTwin(defs: seq<Def>, t: Derivation) {
    match t
    case Word(_) => false
    case Use(d, k, parts) => HasTwin(defs, d, k) || UseTwin(defs, parts)
  }

  predicate UseTwin(defs: seq<Def>, ts: Derivations) {
    match ts
    case End => false
    case And(t, rest) => UsesTwin(defs, t) || UseTwin(defs, rest)
  }

  function Heads(ts: NamedTrees): seq<string> {
    match ts
    case NoTrees => []
    case Then(t, rest) => [t.head] + Heads(rest)
  }

  /** The heads of the subtrees show the right-hand side. */
  lemma {:induction false} HeadsShow(defs: seq<Def>, input: seq<seq<string>>, ts: Derivations, symbols: seq<string>, i: nat)
    requires DerivedAll(defs, input, ts, symbols, i)
    ensures Heads(NameTrees(defs, ts)) == symbols
    decreases ts
  {
    if ts.And? {
      HeadsShow(defs, input, ts.others, symbols[1..], i + Span(ts.first));
      assert symbols == [symbols[0]] + symbols[1..];
    }
  }

  /** A derivation without such a rule is the only one with its names. */
  lemma {:induction false} SameTree(defs: seq<Def>, input: seq<seq<string>>, t: Derivation, u: Derivation, x: string, y: string, i: nat, j: nat)
    requires !UsesTwin(defs, t) && Derived(defs, input, t, x, i) && Derived(defs, input, u, y, j) && NameTree(defs, t) == NameTree(defs, u)
    ensures t == u
    decreases t
  {
    if t.Use? && u.Use? {
      var rule, rule' := defs[t.def].rules[t.rule], defs[u.def].rules[u.rule];
      HeadsShow(defs, input, t.parts, rule, i);
      HeadsShow(defs, input, u.parts, rule', j);
      var d, e, k := t.def, u.def, t.rule;
      assert d == e || Twins(defs, d, e, k);
      SameTrees(defs, input, t.parts, u.parts, rule, rule', i, j);
    }
  }

  lemma {:induction false} SameTrees(
    defs: seq<Def>, input: seq<seq<string>>, ts: Derivations, us: Derivations, xs: seq<string>, ys: seq<string>, i: nat, j: nat
  )
    requires !UseTwin(defs, ts) && DerivedAll(defs, input, ts, xs, i) && DerivedAll(defs, input, us, ys, j) && NameTrees(defs, ts) == NameTrees(defs, us)
    ensures ts == us
    decreases ts
  {
    if ts.And? && us.And? {
      SameTree(defs, input, ts.first, us.first, xs[0], ys[0], i, j);
      SameTrees(defs, input, ts.others, us.others, xs[1..], ys[1..], i + Span(ts.first), j + Span(us.first));
    }
  }

  /** The derivation with a twin in the place of the first rule that has one. */
  ghost function Exchanged(defs: seq<Def>, t: Derivation): Derivation
    requires UsesTwin(defs, t)
  {
    if HasTwin(defs, t.def, t.rule) then
      var e: nat :| e < |defs| && Twins(defs, t.def, e, t.rule);
      Use(e, t.rule, t.parts)
    else Use(t.def, t.rule, ExchangedIn(defs, t.parts))
  }

  ghost function ExchangedIn(defs: seq<Def>, ts: Derivations): Derivations
    requires UseTwin(defs, ts)
  {
    if UsesTwin(defs, ts.first) then And(Exchanged(defs, ts.first), ts.others) else And(ts.first, ExchangedIn(defs, ts.others))
  }

  /** It is another derivation, of the same tokens and with the same names. */
  lemma {:induction false} ExchangedSame(defs: seq<Def>, input: seq<seq<string>>, t: Derivation, x: string, i: nat)
    requires UsesTwin(defs, t) && Derived(defs, input, t, x, i)
    ensures SharesNames(defs, input, t, Exchanged(defs, t), x, i)
    decreases t
  {
    if !HasTwin(defs, t.def, t.rule) { ExchangedInSame(defs, input, t.parts, defs[t.def].rules[t.rule], i); }
  }

  lemma {:induction false} ExchangedInSame(defs: seq<Def>, input: seq<seq<string>>, ts: Derivations, xs: seq<string>, i: nat)
    requires UseTwin(defs, ts) && DerivedAll(defs, input, ts, xs, i)
    ensures var us := ExchangedIn(defs, ts);
      us != ts && DerivedAll(defs, input, us, xs, i) && Spans(us) == Spans(ts) && NameTrees(defs, us) == NameTrees(defs, ts)
    decreases ts
  {
    if UsesTwin(defs, ts.first) {
      ExchangedSame(defs, input, ts.first, xs[0], i);
    } else {
      ExchangedInSame(defs, input, ts.others, xs[1..], i + Span(ts.first));
    }
  }

  predicate SharesNames(defs: seq<Def>, input: seq<seq<string>>, t: Derivation, u: Derivation, x: string, i: nat) {
    u != t && Derived(defs, input, u, x, i) && Span(u) == Span(t) && NameTree(defs, u) == NameTree(defs, t)
  }

  /** A derivation shares its names with another one of the same tokens if and only if it uses a rule with a
      twin. */
  lemma SharedIff(defs: seq<Def>, input: seq<seq<string>>, t: Derivation, x: string, i: nat)
    requires Derived(defs, input, t, x, i)
    ensures (exists u :: SharesNames(defs, input, t, u, x, i)) <==> UsesTwin(defs, t)
  {
    if UsesTwin(defs, t) {
      ExchangedSame(defs, input, t, x, i);
    } else {
      forall u | SharesNames(defs, input, t, u, x, i) ensures false { SameTree(defs, input, t, u, x, x, i, i); }
    }
  }

  // ----- for all inputs

  ghost predicate TellApart(defs: seq<Def>) {
    forall input, x, i, t, u :: Derived(defs, input, t, x, i) ==> !SharesNames(defs, input, t, u, x, i)
  }

  /** Two definitions of one head have the same right-hand side at the same number. */
  ghost predicate TwinDefs(defs: seq<Def>) {
    exists d, e, k :: Twins(defs, d, e, k)
  }

  function Words(symbols: seq<string>): Derivations {
    if symbols == [] then End else And(Word(symbols[0]), Words(symbols[1..]))
  }

  lemma {:induction false} WordsDerive(defs: seq<Def>, input: seq<seq<string>>, symbols: seq<string>, i: nat)
    requires i + |symbols| <= |input| && forall k :: 0 <= k < |symbols| ==> symbols[k] in input[i + k]
    ensures DerivedAll(defs, input, Words(symbols), symbols, i)
    decreases |symbols|
  {
    if symbols != [] {
      assert symbols[0] in input[i + 0];
      forall k | 0 <= k < |symbols[1..]| ensures symbols[1..][k] in input[i + 1 + k] { assert symbols[k + 1] in input[i + (k + 1)]; }
      WordsDerive(defs, input, symbols[1..], i + 1);
    }
  }

  /** The names tell all derivations of all inputs apart if and only if no two definitions of one head have the
      same right-hand side at the same number. */
  lemma GrammarTellsApart(defs: seq<Def>)
    ensures TellApart(defs) <==> !TwinDefs(defs)
  {
    if d: nat, e: nat, k: nat :| Twins(defs, d, e, k) {
      var rule := defs[d].rules[k];
      var input := seq(|rule|, j requires 0 <= j < |rule| => [rule[j]]);
      WordsDerive(defs, input, rule, 0);
      var t := Use(d, k, Words(rule));
      assert HasTwin(defs, d, k) && Derived(defs, input, t, defs[d].head, 0);
      SharedIff(defs, input, t, defs[d].head, 0);
    } else {
      forall input, x, i, t, u | Derived(defs, input, t, x, i) ensures !SharesNames(defs, input, t, u, x, i) {
        NoTwinsUsed(defs, t);
        SharedIff(defs, input, t, x, i);
      }
    }
  }

  lemma {:induction false} NoTwinsUsed(defs: seq<Def>, t: Derivation)
    requires !TwinDefs(defs)
    ensures !UsesTwin(defs, t)
    decreases t
  {
    if t.Use? { NoTwinsUse(defs, t.parts); }
  }

  lemma {:induction false} NoTwinsUse(defs: seq<Def>, ts: Derivations)
    requires !TwinDefs(defs)
    ensures !UseTwin(defs, ts)
    decreases ts
  {
    if ts.And? {
      NoTwinsUsed(defs, ts.first);
      NoTwinsUse(defs, ts.others);
    }
  }

  // ----- the list of one input

  function Names(defs: seq<Def>, ts: seq<Derivation>): seq<NamedTree> {
    seq(|ts|, k requires 0 <= k < |ts| => NameTree(defs, ts[k]))
  }

  lemma NamesOnce(defs: seq<Def>, input: seq<seq<string>>, ts: seq<Derivation>)
    requires Distinct(ts) && (forall t :: t in ts <==> IsParse(defs, input, t)) && forall t :: t in ts ==> !UsesTwin(defs, t)
    ensures Distinct(Names(defs, ts))
  {
    hide Derived, UsesTwin, NameTree;
    forall x, y | 0 <= x < y < |ts| ensures Names(defs, ts)[x] != Names(defs, ts)[y] {
      assert ts[x] in ts && ts[y] in ts;
      if NameTree(defs, ts[x]) == NameTree(defs, ts[y]) { SameTree(defs, input, ts[x], ts[y], defs[0].head, defs[0].head, 0, 0); }
    }
  }

  lemma NamesTwice(defs: seq<Def>, input: seq<seq<string>>, ts: seq<Derivation>, t: Derivation)
    requires (forall t :: t in ts <==> IsParse(defs, input, t)) && t in ts && UsesTwin(defs, t)
    ensures !Distinct(Names(defs, ts))
  {
    hide Derived, UsesTwin, NameTree;
    ExchangedSame(defs, input, t, defs[0].head, 0);
    var u := Exchanged(defs, t);
    assert IsParse(defs, input, u);
    var x :| 0 <= x < |ts| && ts[x] == t;
    var y :| 0 <= y < |ts| && ts[y] == u;
    assert Names(defs, ts)[x] == Names(defs, ts)[y];
  }

  /** The list of all derivations of an input names each one once if and only if none of them uses a rule with
      a twin. */
  lemma NamedOnceIff(defs: seq<Def>, input: seq<seq<string>>, ts: seq<Derivation>)
    requires Distinct(ts) && forall t :: t in ts <==> IsParse(defs, input, t)
    ensures Distinct(Names(defs, ts)) <==> forall t :: t in ts ==> !UsesTwin(defs, t)
  {
    hide IsParse, UsesTwin, Names;
    if t :| t in ts && UsesTwin(defs, t) {
      NamesTwice(defs, input, ts, t);
    } else {
      NamesOnce(defs, input, ts);
    }
  }

  /** Two definitions of `E` as `a`: the input `a` has two derivations with the same names. */
  lemma TwoOfOneName()
    ensures var defs, input := [Def("E", [["a"]]), Def("E", [["a"]])], [["a"]];
      var t, u := Use(0, 0, And(Word("a"), End)), Use(1, 0, And(Word("a"), End));
      t != u && IsParse(defs, input, t) && IsParse(defs, input, u) && NameTree(defs, t) == NameTree(defs, u)
  {
  }
}
