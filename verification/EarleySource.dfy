/** Derivations over a grammar of the Earley benchmark as it is given: definitions, symbols and the symbols
    that the lexer gave each token. */
module EarleySource {
  import opened Common
  import opened EarleyGrammar

  /** A token that stands for a symbol, or a rule of a definition with one derivation for each symbol of it. */
  datatype Derivation = Word(symbol: string) | Use(def: nat, rule: nat, parts: Derivations)

  datatype Derivations = End | And(first: Derivation, others: Derivations)

  /** How many tokens a derivation covers. */
  function Span(t: Derivation): nat {
    match t
    case Word(_) => 1
    case Use(_, _, parts) => Spans(parts)
  }

  function Spans(ts: Derivations): nat {
    match ts
    case End => 0
    case And(t, rest) => Span(t) + Spans(rest)
  }

  /** The symbol is derived from the tokens from `i` on. */
  predicate Derived(defs: seq<Def>, input: seq<seq<string>>, t: Derivation, symbol: string, i: nat)
    decreases t
  {
    match t
    case Word(x) => x == symbol && i < |input| && symbol in input[i]
    case Use(d, k, parts) =>
      d < |defs| && defs[d].head == symbol && k < |defs[d].rules| && DerivedAll(defs, input, parts, defs[d].rules[k], i)
  }

  /** The symbols are derived one after the other. */
  predicate DerivedAll(defs: seq<Def>, input: seq<seq<string>>, ts: Derivations, symbols: seq<string>, i: nat)
    decreases ts
  {
    match ts
    case End => symbols == []
    case And(t, rest) =>
      symbols != [] && Derived(defs, input, t, symbols[0], i) && DerivedAll(defs, input, rest, symbols[1..], i + Span(t))
  }

  /** A derivation of the whole input from the head of the first definition. */
  predicate IsParse(defs: seq<Def>, input: seq<seq<string>>, t: Derivation) {
    defs != [] && Derived(defs, input, t, defs[0].head, 0) && Span(t) == |input|
  }

  /** The symbol is derived from the tokens `i` to `j`. */
  ghost predicate DerivedOver(defs: seq<Def>, input: seq<seq<string>>, symbol: string, i: nat, j: nat) {
    exists t :: Derived(defs, input, t, symbol, i) && i + Span(t) == j
  }

  /** The input is a sentence of the grammar. */
  ghost predicate Sentence(defs: seq<Def>, input: seq<seq<string>>) {
    exists t :: IsParse(defs, input, t)
  }

  /** How deep the reader of derivation trees goes: from the last part of a rule back to the first. */
  function Deep(t: Derivation): nat {
    match t
    case Word(_) => 1
    case Use(_, _, parts) => Deeps(parts)
  }

  function Deeps(ts: Derivations): nat {
    match ts
    case End => 1
    case And(t, rest) =>
      var here, there := HowMany(rest) + 1 + (if Deep(t) < 1 then 1 else Deep(t)), Deeps(rest);
      if here < there then there else here
  }

  function HowMany(ts: Derivations): nat {
    match ts
    case End => 0
    case And(_, rest) => 1 + HowMany(rest)
  }

  // ----- symbols and rules by number

  /** All symbols as they occur: each head, followed by the rules of its definition. */
  function Occurring(defs: seq<Def>): seq<string>
    decreases |defs|
  {
    if defs == [] then [] else [defs[0].head] + Concat(defs[0].rules) + Occurring(defs[1..])
  }

  function Concat(rules: seq<seq<string>>): seq<string> {
    if rules == [] then [] else rules[0] + Concat(rules[1..])
  }

  /** `x` occurs, and before the first `y`. */
  ghost predicate Before(occ: seq<string>, x: string, y: string) {
    exists p :: 0 <= p < |occ| && occ[p] == x && y !in occ[..p + 1]
  }

  /** Each symbol once, in the order of first occurrence. */
  ghost predicate InOrder(nts: seq<string>, occ: seq<string>) {
    Distinct(nts) && (forall x :: x in nts <==> x in occ) && forall i, j :: 0 <= i < j < |nts| ==> Before(occ, nts[i], nts[j])
  }

  /** The place of rule `k` of definition `d` among all rules. */
  function Place(defs: seq<Def>, d: nat, k: nat): nat
    requires d <= |defs|
    decreases |defs|
  {
    if d == 0 then k else |defs[0].rules| + Place(defs[1..], d - 1, k)
  }

  /** A rule by numbers says what it says by symbols. */
  ghost predicate RuleIs(nts: seq<string>, q: Rule, head: string, symbols: seq<string>, number: nat) {
    q.head < |nts| && nts[q.head] == head && q.number == number && |q.rhs| == |symbols| &&
    forall j :: 0 <= j < |symbols| ==> q.rhs[j] < |nts| && nts[q.rhs[j]] == symbols[j]
  }

  ghost predicate RulesAre(defs: seq<Def>, nts: seq<string>, rules: seq<Rule>) {
    |rules| == Place(defs, |defs|, 0) &&
    forall d, k :: 0 <= d < |defs| && 0 <= k < |defs[d].rules| ==>
      Place(defs, d, k) < |rules| && RuleIs(nts, rules[Place(defs, d, k)], defs[d].head, defs[d].rules[k], k + 1)
  }

  ghost predicate TokensAre(input: seq<seq<string>>, nts: seq<string>, toks: seq<seq<nat>>) {
    |toks| == |input| && forall i :: 0 <= i < |toks| ==> TokenIs(input[i], nts, toks[i])
  }

  ghost predicate TokenIs(names: seq<string>, nts: seq<string>, tok: seq<nat>) {
    forall x: nat :: x in tok <==> x < |nts| && nts[x] in names
  }

  /** Symbols, rules and tokens by number are those that are given; the goal has the number zero. */
  ghost predicate Numbering(defs: seq<Def>, input: seq<seq<string>>, nts: seq<string>, rules: seq<Rule>, toks: seq<seq<nat>>) {
    defs != [] && nts != [] && nts[0] == defs[0].head && InOrder(nts, Occurring(defs)) && RulesAre(defs, nts, rules) && TokensAre(input, nts, toks)
  }

  // ----- the compiled numbers

  lemma {:induction false} NumbersOf(head: nat, rules: seq<seq<string>>, nts: seq<string>, number: nat, k: nat)
    requires k <= |rules|
    ensures |NumberRules(head, rules, nts, number)| == |rules|
    ensures k < |rules| ==> NumberRules(head, rules, nts, number)[k] == Rule(head, Numbered(rules[k], nts), number + k)
    decreases |rules|
  {
    if rules != [] { NumbersOf(head, rules[1..], nts, number + 1, if k > 0 then k - 1 else 0); }
  }

  lemma {:induction false} RuleAtPlace(defs: seq<Def>, nts: seq<string>, d: nat, k: nat)
    requires d < |defs| && k < |defs[d].rules|
    ensures Place(defs, d, k) < |AllRules(defs, nts)|
    ensures AllRules(defs, nts)[Place(defs, d, k)] == Rule(Num(defs[d].head, nts), Numbered(defs[d].rules[k], nts), k + 1)
    decreases |defs|
  {
    NumbersOf(Num(defs[0].head, nts), defs[0].rules, nts, 1, if d == 0 then k else 0);
    if d > 0 { RuleAtPlace(defs[1..], nts, d - 1, k); }
  }

  lemma {:induction false} RulesInAll(defs: seq<Def>, nts: seq<string>)
    ensures |AllRules(defs, nts)| == Place(defs, |defs|, 0)
    decreases |defs|
  {
    if defs != [] {
      NumbersOf(Num(defs[0].head, nts), defs[0].rules, nts, 1, 0);
      RulesInAll(defs[1..], nts);
    }
  }

  lemma NumIs(x: string, nts: seq<string>)
    requires x in nts
    ensures Num(x, nts) < |nts| && nts[Num(x, nts)] == x
  {
    IndexNone(x, nts);
  }

  /** The rules that are compiled are the rules of the definitions. */
  lemma CompiledRules(defs: seq<Def>, nts: seq<string>)
    requires forall x :: x in nts <==> x in Occurring(defs)
    ensures RulesAre(defs, nts, AllRules(defs, nts))
  {
    RulesInAll(defs, nts);
    forall d, k | 0 <= d < |defs| && 0 <= k < |defs[d].rules|
      ensures Place(defs, d, k) < |AllRules(defs, nts)|
      ensures RuleIs(nts, AllRules(defs, nts)[Place(defs, d, k)], defs[d].head, defs[d].rules[k], k + 1)
    {
      RuleAtPlace(defs, nts, d, k);
      HeadOccurs(defs, d);
      NumIs(defs[d].head, nts);
      forall j | 0 <= j < |defs[d].rules[k]| ensures Num(defs[d].rules[k][j], nts) < |nts| && nts[Num(defs[d].rules[k][j], nts)] == defs[d].rules[k][j] {
        SymbolOccurs(defs, d, k, j);
        NumIs(defs[d].rules[k][j], nts);
      }
    }
  }

  lemma {:induction false} HeadOccurs(defs: seq<Def>, d: nat)
    requires d < |defs|
    ensures defs[d].head in Occurring(defs)
    decreases |defs|
  {
    if d > 0 { HeadOccurs(defs[1..], d - 1); }
  }

  lemma {:induction false} SymbolOccurs(defs: seq<Def>, d: nat, k: nat, j: nat)
    requires d < |defs| && k < |defs[d].rules| && j < |defs[d].rules[k]|
    ensures defs[d].rules[k][j] in Occurring(defs)
    decreases |defs|
  {
    if d > 0 { SymbolOccurs(defs[1..], d - 1, k, j); } else { InConcat(defs[0].rules, k, j); }
  }

  lemma {:induction false} InConcat(rules: seq<seq<string>>, k: nat, j: nat)
    requires k < |rules| && j < |rules[k]|
    ensures rules[k][j] in Concat(rules)
  {
    if k > 0 { InConcat(rules[1..], k - 1, j); }
  }

  // ----- the order of the symbols

  lemma AdjoinOrder(nts: seq<string>, occ: seq<string>, x: string)
    requires InOrder(nts, occ)
    ensures InOrder(Adjoin(nts, x), occ + [x])
  {
    var nts', occ' := Adjoin(nts, x), occ + [x];
    forall i, j | 0 <= i < j < |nts'| ensures Before(occ', nts'[i], nts'[j]) {
      if j < |nts| {
        var p :| 0 <= p < |occ| && occ[p] == nts[i] && nts[j] !in occ[..p + 1];
        assert occ'[..p + 1] == occ[..p + 1];
      } else {
        assert nts[i] in nts && nts[i] in occ;
        var p :| 0 <= p < |occ| && occ[p] == nts[i];
        assert occ'[..p + 1] == occ[..p + 1] && x !in occ;
      }
    }
  }

  lemma {:induction false} RuleOrder(nts: seq<string>, occ: seq<string>, rule: seq<string>)
    requires InOrder(nts, occ)
    ensures InOrder(AddRule(nts, rule), occ + rule)
    decreases |rule|
  {
    hide InOrder, Adjoin;
    if rule == [] {
      assert occ + rule == occ;
    } else {
      AdjoinOrder(nts, occ, rule[0]);
      RuleOrder(Adjoin(nts, rule[0]), occ + [rule[0]], rule[1..]);
      assert occ + [rule[0]] + rule[1..] == occ + rule;
    }
  }

  lemma {:induction false} RulesOrder(nts: seq<string>, occ: seq<string>, rules: seq<seq<string>>)
    requires InOrder(nts, occ)
    ensures InOrder(AddRules(nts, rules), occ + Concat(rules))
    decreases |rules|
  {
    hide InOrder, AddRule;
    if rules == [] {
      assert occ + Concat(rules) == occ;
    } else {
      RuleOrder(nts, occ, rules[0]);
      RulesOrder(AddRule(nts, rules[0]), occ + rules[0], rules[1..]);
      assert occ + rules[0] + Concat(rules[1..]) == occ + Concat(rules);
    }
  }

  lemma {:induction false} SymbolOrder(nts: seq<string>, occ: seq<string>, defs: seq<Def>)
    requires InOrder(nts, occ)
    ensures InOrder(Symbols(nts, defs), occ + Occurring(defs))
    decreases |defs|
  {
    hide InOrder, Adjoin, AddRules;
    if defs == [] {
      assert occ + Occurring(defs) == occ;
    } else {
      var h, rules := defs[0].head, defs[0].rules;
      AdjoinOrder(nts, occ, h);
      RulesOrder(Adjoin(nts, h), occ + [h], rules);
      SymbolOrder(AddRules(Adjoin(nts, h), rules), occ + [h] + Concat(rules), defs[1..]);
      assert occ + [h] + Concat(rules) + Occurring(defs[1..]) == occ + Occurring(defs);
    }
  }

  // ----- derivations and derivation trees

  /** The definition and the rule in it at a place. */
  function DefAt(defs: seq<Def>, r: nat): (p: (nat, nat))
    requires r < Place(defs, |defs|, 0)
    ensures p.0 < |defs| && p.1 < |defs[p.0].rules| && Place(defs, p.0, p.1) == r
    decreases |defs|
  {
    if r < |defs[0].rules| then (0, r)
    else
      var p := DefAt(defs[1..], r - |defs[0].rules|);
      (p.0 + 1, p.1)
  }

  lemma {:induction false} DefAtPlace(defs: seq<Def>, d: nat, k: nat)
    requires d < |defs| && k < |defs[d].rules|
    ensures Place(defs, d, k) < Place(defs, |defs|, 0) && DefAt(defs, Place(defs, d, k)) == (d, k)
    decreases |defs|
  {
    if d > 0 { DefAtPlace(defs[1..], d - 1, k); }
  }

  /** A derivation tree by symbols and definitions. */
  function Spelled(defs: seq<Def>, nts: seq<string>, t: Tree): Derivation {
    match t
    case Token(x) => Word(if x < |nts| then nts[x] else "")
    case Node(r, kids) =>
      if r < Place(defs, |defs|, 0) then
        var p := DefAt(defs, r);
        Use(p.0, p.1, SpelledAll(defs, nts, kids))
      else Word("")
  }

  function SpelledAll(defs: seq<Def>, nts: seq<string>, ts: Trees): Derivations {
    match ts
    case Nil => End
    case Cons(t, rest) => And(Spelled(defs, nts, t), SpelledAll(defs, nts, rest))
  }

  ghost function Coded(defs: seq<Def>, nts: seq<string>, t: Derivation): Tree {
    match t
    case Word(x) => Token(Num(x, nts))
    case Use(d, k, parts) => Node(if d < |defs| then Place(defs, d, k) else 0, CodedAll(defs, nts, parts))
  }

  ghost function CodedAll(defs: seq<Def>, nts: seq<string>, ts: Derivations): Trees {
    match ts
    case End => Nil
    case And(t, rest) => Cons(Coded(defs, nts, t), CodedAll(defs, nts, rest))
  }

  lemma NumAt(nts: seq<string>, x: nat)
    requires Distinct(nts) && x < |nts|
    ensures Num(nts[x], nts) == x
  {
    IndexAt(nts, x);
  }

  /** A derivation tree is a derivation by symbols, and can be had back from it. */
  lemma {:induction false} TreeIsDerivation(
    defs: seq<Def>, input: seq<seq<string>>, nts: seq<string>, rules: seq<Rule>, toks: seq<seq<nat>>, t: Tree, nt: nat, i: nat
  )
    requires Numbering(defs, input, nts, rules, toks) && nt < |nts| && Derives(rules, toks, t, nt, i)
    ensures Derived(defs, input, Spelled(defs, nts, t), nts[nt], i) && Span(Spelled(defs, nts, t)) == Width(t)
    ensures Coded(defs, nts, Spelled(defs, nts, t)) == t
    decreases t
  {
    match t
    case Token(x) =>
      assert TokenIs(input[i], nts, toks[i]);
      NumAt(nts, nt);
    case Node(r, kids) =>
      var (d, k) := DefAt(defs, r);
      assert RuleIs(nts, rules[Place(defs, d, k)], defs[d].head, defs[d].rules[k], k + 1);
      TreesAreDerivations(defs, input, nts, rules, toks, kids, rules[r].rhs, defs[d].rules[k], i);
  }

  /** The symbols of the numbers. */
  ghost predicate Say(nts: seq<string>, xs: seq<nat>, symbols: seq<string>) {
    |xs| == |symbols| && forall j :: 0 <= j < |xs| ==> xs[j] < |nts| && nts[xs[j]] == symbols[j]
  }

  lemma {:induction false} TreesAreDerivations(
    defs: seq<Def>, input: seq<seq<string>>, nts: seq<string>, rules: seq<Rule>, toks: seq<seq<nat>>, ts: Trees, xs: seq<nat>, symbols: seq<string>, i: nat
  )
    requires Numbering(defs, input, nts, rules, toks) && Say(nts, xs, symbols) && DerivesAll(rules, toks, ts, xs, i)
    ensures DerivedAll(defs, input, SpelledAll(defs, nts, ts), symbols, i) && Spans(SpelledAll(defs, nts, ts)) == Widths(ts)
    ensures CodedAll(defs, nts, SpelledAll(defs, nts, ts)) == ts
    decreases ts
  {
    hide Numbering;
    if ts.Cons? {
      TreeIsDerivation(defs, input, nts, rules, toks, ts.head, xs[0], i);
      TreesAreDerivations(defs, input, nts, rules, toks, ts.tail, xs[1..], symbols[1..], i + Width(ts.head));
    }
  }

  /** A derivation by symbols is one of a derivation tree. */
  lemma {:induction false} DerivationIsTree(
    defs: seq<Def>, input: seq<seq<string>>, nts: seq<string>, rules: seq<Rule>, toks: seq<seq<nat>>, t: Derivation, nt: nat, i: nat
  )
    requires Numbering(defs, input, nts, rules, toks) && nt < |nts| && Derived(defs, input, t, nts[nt], i)
    ensures Derives(rules, toks, Coded(defs, nts, t), nt, i) && Width(Coded(defs, nts, t)) == Span(t)
    ensures Spelled(defs, nts, Coded(defs, nts, t)) == t
    decreases t
  {
    match t
    case Word(x) =>
      assert TokenIs(input[i], nts, toks[i]);
      NumAt(nts, nt);
    case Use(d, k, parts) =>
      DefAtPlace(defs, d, k);
      var q := rules[Place(defs, d, k)];
      assert RuleIs(nts, q, defs[d].head, defs[d].rules[k], k + 1);
      NumAt(nts, nt);
      NumAt(nts, q.head);
      DerivationsAreTrees(defs, input, nts, rules, toks, parts, q.rhs, defs[d].rules[k], i);
  }

  lemma {:induction false} DerivationsAreTrees(
    defs: seq<Def>, input: seq<seq<string>>, nts: seq<string>, rules: seq<Rule>, toks: seq<seq<nat>>, ts: Derivations, xs: seq<nat>, symbols: seq<string>, i: nat
  )
    requires Numbering(defs, input, nts, rules, toks) && Say(nts, xs, symbols) && DerivedAll(defs, input, ts, symbols, i)
    ensures DerivesAll(rules, toks, CodedAll(defs, nts, ts), xs, i) && Widths(CodedAll(defs, nts, ts)) == Spans(ts)
    ensures SpelledAll(defs, nts, CodedAll(defs, nts, ts)) == ts
    decreases ts
  {
    hide Numbering;
    if ts.And? {
      DerivationIsTree(defs, input, nts, rules, toks, ts.first, xs[0], i);
      DerivationsAreTrees(defs, input, nts, rules, toks, ts.others, xs[1..], symbols[1..], i + Span(ts.first));
    }
  }

  /** A sentence has a derivation tree of the numbered goal over the numbered tokens, and only a sentence has one. */
  lemma SentenceTree(defs: seq<Def>, input: seq<seq<string>>, nts: seq<string>, rules: seq<Rule>, toks: seq<seq<nat>>) returns (t: Tree)
    requires Numbering(defs, input, nts, rules, toks) && Sentence(defs, input)
    ensures Derives(rules, toks, t, 0, 0) && Width(t) == |input|
  {
    var u :| IsParse(defs, input, u);
    DerivationIsTree(defs, input, nts, rules, toks, u, 0, 0);
    t := Coded(defs, nts, u);
  }

  lemma TreeSentence(defs: seq<Def>, input: seq<seq<string>>, nts: seq<string>, rules: seq<Rule>, toks: seq<seq<nat>>, t: Tree)
    requires Numbering(defs, input, nts, rules, toks) && Derives(rules, toks, t, 0, 0) && Width(t) == |input|
    ensures Sentence(defs, input)
  {
    TreeIsDerivation(defs, input, nts, rules, toks, t, 0, 0);
    assert IsParse(defs, input, Spelled(defs, nts, t));
  }
}
