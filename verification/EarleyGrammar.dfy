/** Grammars of the Earley benchmark, the tables compiled from them and their derivation trees. */
module EarleyGrammar {
  import opened Common

  /** A definition `(head rule ...)`; a rule is a list of symbols. */
  datatype Def = Def(head: string, rules: seq<seq<string>>)

  /** A rule over the numbers of the symbols, with its number within its definition. */
  datatype Rule = Rule(head: nat, rhs: seq<nat>, number: nat)

  // ----- the symbols

  function Adjoin(nts: seq<string>, nt: string): seq<string> {
    if nt in nts then nts else nts + [nt]
  }

  function AddRule(nts: seq<string>, rule: seq<string>): seq<string>
    decreases |rule|
  {
    if rule == [] then nts else AddRule(Adjoin(nts, rule[0]), rule[1..])
  }

  function AddRules(nts: seq<string>, rules: seq<seq<string>>): seq<string>
    decreases |rules|
  {
    if rules == [] then nts else AddRules(AddRule(nts, rules[0]), rules[1..])
  }

  /** All symbols, each once, in the order of their first occurrence. */
  function Symbols(nts: seq<string>, defs: seq<Def>): seq<string>
    decreases |defs|
  {
    if defs == [] then nts else Symbols(AddRules(Adjoin(nts, defs[0].head), defs[0].rules), defs[1..])
  }

  /** `ind`: the search runs from the end of the vector. */
  method Ind(nt: string, nts: seq<string>) returns (r: Option<nat>)
    requires Distinct(nts)
    ensures r == Index(nt, nts)
  {
    var i := |nts| - 1;
    while i >= 0
      invariant -1 <= i < |nts| && forall k :: i < k < |nts| ==> nts[k] != nt
    {
      if nts[i] == nt {
        IndexAt(nts, i);
        return Some(i);
      }
      i := i - 1;
    }
    IndexNone(nt, nts);
    return None;
  }

  /** The number of a symbol. */
  function Index(nt: string, nts: seq<string>): Option<nat> {
    if nts == [] then None
    else if nts[0] == nt then Some(0)
    else match Index(nt, nts[1..]) case None => None case Some(i) => Some(i + 1)
  }

  lemma {:induction false} IndexAt(nts: seq<string>, i: nat)
    requires Distinct(nts) && i < |nts|
    ensures Index(nts[i], nts) == Some(i)
  {
    if i > 0 {
      assert nts[1..][i - 1] == nts[i];
      IndexAt(nts[1..], i - 1);
    }
  }

  lemma {:induction false} IndexNone(nt: string, nts: seq<string>)
    ensures Index(nt, nts).None? <==> nt !in nts
    ensures Index(nt, nts).Some? ==> Index(nt, nts).value < |nts| && nts[Index(nt, nts).value] == nt
  {
    if nts != [] { IndexNone(nt, nts[1..]); }
  }

  lemma {:induction false} SymbolsGrow(nts: seq<string>, defs: seq<Def>)
    requires Distinct(nts)
    ensures nts <= Symbols(nts, defs) && Distinct(Symbols(nts, defs))
    decreases |defs|
  {
    if defs != [] {
      RulesGrow(Adjoin(nts, defs[0].head), defs[0].rules);
      SymbolsGrow(AddRules(Adjoin(nts, defs[0].head), defs[0].rules), defs[1..]);
    }
  }

  lemma {:induction false} RulesGrow(nts: seq<string>, rules: seq<seq<string>>)
    requires Distinct(nts)
    ensures nts <= AddRules(nts, rules) && Distinct(AddRules(nts, rules))
    ensures forall r, k :: 0 <= r < |rules| && 0 <= k < |rules[r]| ==> rules[r][k] in AddRules(nts, rules)
    decreases |rules|
  {
    if rules != [] {
      RuleGrows(nts, rules[0]);
      RulesGrow(AddRule(nts, rules[0]), rules[1..]);
      forall r, k | 0 <= r < |rules| && 0 <= k < |rules[r]| ensures rules[r][k] in AddRules(nts, rules) {
        if r > 0 { assert rules[1..][r - 1] == rules[r]; }
      }
    }
  }

  lemma {:induction false} RuleGrows(nts: seq<string>, rule: seq<string>)
    requires Distinct(nts)
    ensures nts <= AddRule(nts, rule) && Distinct(AddRule(nts, rule))
    ensures forall k :: 0 <= k < |rule| ==> rule[k] in AddRule(nts, rule)
    decreases |rule|
  {
    if rule != [] {
      RuleGrows(Adjoin(nts, rule[0]), rule[1..]);
      forall k | 0 <= k < |rule| ensures rule[k] in AddRule(nts, rule) {
        assert rule[0] in Adjoin(nts, rule[0]);
        if k > 0 { assert rule[1..][k - 1] == rule[k]; }
      }
    }
  }

  function Num(nt: string, nts: seq<string>): nat {
    match Index(nt, nts) case Some(i) => i case None => 0
  }

  function Numbered(rule: seq<string>, nts: seq<string>): seq<nat> {
    seq(|rule|, k requires 0 <= k < |rule| => Num(rule[k], nts))
  }

  function NumberRules(head: nat, rules: seq<seq<string>>, nts: seq<string>, number: nat): seq<Rule>
    decreases |rules|
  {
    if rules == [] then [] else [Rule(head, Numbered(rules[0], nts), number)] + NumberRules(head, rules[1..], nts, number + 1)
  }

  /** The rules of all definitions in order. */
  function AllRules(defs: seq<Def>, nts: seq<string>): seq<Rule>
    decreases |defs|
  {
    if defs == [] then [] else NumberRules(Num(defs[0].head, nts), defs[0].rules, nts, 1) + AllRules(defs[1..], nts)
  }

  /** Every rule is over symbols with numbers below `n`. */
  predicate Over(n: nat, rules: seq<Rule>) {
    forall r :: 0 <= r < |rules| ==> rules[r].head < n && forall k :: 0 <= k < |rules[r].rhs| ==> rules[r].rhs[k] < n
  }

  // ----- the tables

  /** What is compiled from a grammar. A configuration below the number of symbols is a token of
      that symbol; the others are the positions of the dot in the rules, one rule after another.
      `steps` gives the symbol after the dot, or the head less the number of symbols at the end. */
  datatype Tables = Tables(
    starters: seq<seq<nat>>,
    enders: seq<seq<nat>>,
    predictors: seq<seq<nat>>,
    steps: seq<int>,
    names: seq<Option<(nat, nat)>>)

  /** The configuration with the dot at the start of rule `r`. */
  function Base(n: nat, rules: seq<Rule>, r: nat): nat
    requires r <= |rules|
  {
    if r == 0 then n else Base(n, rules, r - 1) + |rules[r - 1].rhs| + 1
  }

  /** The configuration with the dot after `d` symbols of rule `r`. */
  function Dot(n: nat, rules: seq<Rule>, r: nat, d: nat): nat
    requires r < |rules|
  {
    Base(n, rules, r) + d
  }

  lemma {:induction false} BaseMonotone(n: nat, rules: seq<Rule>, r: nat, q: nat)
    requires r < q <= |rules|
    ensures n <= Base(n, rules, r) && Base(n, rules, r) + |rules[r].rhs| < Base(n, rules, q)
    decreases q
  {
    if r + 1 < q {
      BaseMonotone(n, rules, r, q - 1);
    } else if r > 0 {
      BaseMonotone(n, rules, r - 1, r);
    }
  }

  /** Every configuration that is not a token belongs to one rule. */
  lemma {:induction false} Locate(n: nat, rules: seq<Rule>, q: nat, c: nat) returns (r: nat, d: nat)
    requires q <= |rules| && n <= c < Base(n, rules, q)
    ensures r < q && d <= |rules[r].rhs| && c == Dot(n, rules, r, d)
    decreases q
  {
    if c < Base(n, rules, q - 1) {
      r, d := Locate(n, rules, q - 1, c);
    } else {
      r, d := q - 1, c - Base(n, rules, q - 1);
    }
  }

  /** The rule-by-rule part of the layout, for the first `q` rules. */
  ghost predicate RulesLaid(n: nat, rules: seq<Rule>, t: Tables, q: nat)
    requires q <= |rules|
  {
    |t.names| == |t.steps| && Base(n, rules, q) <= |t.steps| &&
    forall r, d :: 0 <= r < q && 0 <= d <= |rules[r].rhs| ==>
      var c := Dot(n, rules, r, d);
      n <= c < |t.steps| &&
      t.steps[c] == (if d < |rules[r].rhs| then rules[r].rhs[d] else rules[r].head - n) &&
      t.names[c] == if d == 0 then Some((rules[r].head, rules[r].number)) else None
  }

  /** The lists hold, for each symbol, the configurations below `m` whose step is the symbol plus `off`. */
  ghost predicate ListedBy(lists: seq<seq<nat>>, steps: seq<int>, m: nat, off: int) {
    m <= |steps| && forall nt: nat, c: nat :: nt < |lists| ==> ListedFor(lists, steps, m, off, nt, c)
  }

  ghost predicate ListedFor(lists: seq<seq<nat>>, steps: seq<int>, m: nat, off: int, nt: nat, c: nat)
    requires m <= |steps| && nt < |lists|
  {
    c in lists[nt] <==> c < m && steps[c] == nt + off
  }

  ghost predicate AllDistinct(lists: seq<seq<nat>>) {
    forall nt :: 0 <= nt < |lists| ==> Distinct(lists[nt])
  }

  /** `enders` and `predictors` list the configurations below `m` by their steps. */
  ghost predicate Listed(n: nat, t: Tables, m: nat) {
    |t.enders| == |t.predictors| == n && AllDistinct(t.enders) &&
    ListedBy(t.enders, t.steps, m, -(n as int)) && ListedBy(t.predictors, t.steps, m, 0)
  }

  /** `starters` lists the starts of the first `q` rules. */
  ghost predicate Started(n: nat, rules: seq<Rule>, t: Tables, q: nat)
    requires q <= |rules|
  {
    |t.starters| == n && forall nt :: 0 <= nt < n ==> t.starters[nt] == Starts(n, rules, nt, q)
  }

  /** The first configurations of the rules for `nt` among the first `q`, the latest first. */
  function Starts(n: nat, rules: seq<Rule>, nt: nat, q: nat): seq<nat>
    requires q <= |rules|
  {
    if q == 0 then []
    else if rules[q - 1].head == nt then [Base(n, rules, q - 1)] + Starts(n, rules, nt, q - 1)
    else Starts(n, rules, nt, q - 1)
  }

  lemma {:induction false} StartsAre(n: nat, rules: seq<Rule>, nt: nat, q: nat, c: nat)
    requires q <= |rules|
    ensures c in Starts(n, rules, nt, q) <==> exists r :: 0 <= r < q && rules[r].head == nt && c == Base(n, rules, r)
  {
    if q > 0 {
      StartsAre(n, rules, nt, q - 1, c);
      if c in Starts(n, rules, nt, q) {
        if c !in Starts(n, rules, nt, q - 1) {
          assert rules[q - 1].head == nt && c == Base(n, rules, q - 1);
        }
      }
    }
  }

  /** The tables describe the rules. */
  ghost predicate Layout(n: nat, rules: seq<Rule>, t: Tables) {
    |t.steps| == Base(n, rules, |rules|) && n <= |t.steps| &&
    RulesLaid(n, rules, t, |rules|) && Listed(n, t, |t.steps|) && Started(n, rules, t, |rules|) &&
    forall c: nat :: c < n ==> t.steps[c] == c - n && t.names[c] == Some((c, 0))
  }

  /** The tables before any rule: one configuration for each token. */
  method CompileTokens(n: nat, size: nat) returns (t: Tables)
    requires n <= size
    ensures |t.steps| == |t.names| == size && |t.starters| == |t.enders| == |t.predictors| == n
    ensures forall i: nat :: i < n ==> t.steps[i] == i - n && t.names[i] == Some((i, 0)) && t.enders[i] == [i]
    ensures forall i :: 0 <= i < n ==> t.starters[i] == [] && t.predictors[i] == []
    ensures forall i :: n <= i < size ==> t.names[i].None?
  {
    var enders: seq<seq<nat>> := seq(n, _ => []);
    var steps: seq<int> := seq(size, _ => 0);
    var names: seq<Option<(nat, nat)>> := seq(size, _ => None);
    var i := n - 1;
    while i >= 0
      invariant -1 <= i < n && |enders| == n && |steps| == |names| == size
      invariant forall k: nat :: i < k < n ==> steps[k] == k - n && names[k] == Some((k, 0)) && enders[k] == [k]
      invariant forall k :: n <= k < size ==> names[k].None?
    {
      steps := steps[i := i - n];
      names := names[i := Some((i, 0))];
      enders := enders[i := [i]];
      i := i - 1;
    }
    t := Tables(seq(n, _ => []), enders, seq(n, _ => []), steps, names);
  }

  /** The tables with one more symbol before the dot. */
  function AddStep(t: Tables, conf: nat, nt: nat): Tables
    requires conf < |t.steps| && nt < |t.predictors|
  {
    t.(steps := t.steps[conf := nt], predictors := t.predictors[nt := [conf] + t.predictors[nt]])
  }

  function AddStart(t: Tables, conf: nat, rule: Rule): Tables
    requires conf < |t.names| && rule.head < |t.starters|
  {
    t.(names := t.names[conf := Some((rule.head, rule.number))],
       starters := t.starters[rule.head := [conf] + t.starters[rule.head]])
  }

  function AddEnd(t: Tables, conf: nat, rule: Rule): Tables
    requires conf < |t.steps| && rule.head < |t.enders|
  {
    t.(steps := t.steps[conf := rule.head - |t.enders|],
       enders := t.enders[rule.head := [conf] + t.enders[rule.head]])
  }

  /** A new configuration at the front of one list. */
  lemma ListedPrepend(lists: seq<seq<nat>>, steps: seq<int>, steps': seq<int>, m: nat, off: int, nt: nat)
    requires ListedBy(lists, steps, m, off) && nt < |lists| && m < |steps| && steps' == steps[m := nt + off]
    ensures ListedBy(lists[nt := [m] + lists[nt]], steps', m + 1, off)
  {
    var lists', m' := lists[nt := [m] + lists[nt]], m + 1;
    forall x: nat, c: nat | x < |lists'| ensures ListedFor(lists', steps', m', off, x, c) {
      assert ListedFor(lists, steps, m, off, x, c);
    }
  }

  /** A configuration that belongs in none of the lists. */
  lemma ListedSkip(lists: seq<seq<nat>>, steps: seq<int>, steps': seq<int>, m: nat, off: int)
    requires ListedBy(lists, steps, m, off) && m < |steps| == |steps'| && (forall c :: 0 <= c < |steps| && c != m ==> steps'[c] == steps[c])
    requires !(0 <= steps'[m] - off < |lists|)
    ensures ListedBy(lists, steps', m + 1, off)
  {
    var m' := m + 1;
    forall x: nat, c: nat | x < |lists| ensures ListedFor(lists, steps', m', off, x, c) {
      assert ListedFor(lists, steps, m, off, x, c);
    }
  }

  lemma StepListed(n: nat, t: Tables, m: nat, nt: nat)
    requires Listed(n, t, m) && m < |t.steps| && nt < n
    ensures Listed(n, AddStep(t, m, nt), m + 1)
  {
    hide ListedBy;
    ListedPrepend(t.predictors, t.steps, t.steps[m := nt], m, 0, nt);
    ListedSkip(t.enders, t.steps, t.steps[m := nt], m, -(n as int));
  }

  lemma EndListed(n: nat, t: Tables, m: nat, rule: Rule)
    requires Listed(n, t, m) && m < |t.steps| && rule.head < n
    ensures Listed(n, AddEnd(t, m, rule), m + 1)
  {
    EnderNew(t.enders, t.steps, m, -(n as int), rule.head);
    hide ListedBy;
    ListedPrepend(t.enders, t.steps, t.steps[m := rule.head - n], m, -(n as int), rule.head);
    ListedSkip(t.predictors, t.steps, t.steps[m := rule.head - n], m, 0);
  }

  lemma EnderNew(lists: seq<seq<nat>>, steps: seq<int>, m: nat, off: int, nt: nat)
    requires ListedBy(lists, steps, m, off) && nt < |lists| && AllDistinct(lists)
    ensures AllDistinct(lists[nt := [m] + lists[nt]])
  {
    assert ListedFor(lists, steps, m, off, nt, m) && m !in lists[nt];
    assert Distinct([m] + lists[nt]);
  }

  lemma StartStarted(n: nat, rules: seq<Rule>, t: Tables, q: nat)
    requires q < |rules| && Started(n, rules, t, q) && rules[q].head < n && Base(n, rules, q) < |t.names|
    ensures Started(n, rules, AddStart(t, Base(n, rules, q), rules[q]), q + 1)
  {
  }

  /** The dot goes through the right-hand side of a rule. */
  method CompileSteps(n: nat, t0: Tables, start: nat, rhs: seq<nat>) returns (t: Tables)
    requires Listed(n, t0, start) && start + |rhs| < |t0.steps| && forall k :: 0 <= k < |rhs| ==> rhs[k] < n
    ensures Listed(n, t, start + |rhs|) && t == t0.(steps := t.steps, predictors := t.predictors)
    ensures |t.steps| == |t0.steps| && (forall c :: 0 <= c < start ==> t.steps[c] == t0.steps[c])
    ensures forall k :: start <= k < start + |rhs| ==> t.steps[k] == rhs[k - start]
  {
    t := t0;
    assert |t.predictors| == n;
    hide Listed;
    var d := 0;
    while d < |rhs|
      invariant d <= |rhs| && Listed(n, t, start + d) && |t.predictors| == n
      invariant t == t0.(steps := t.steps, predictors := t.predictors) && |t.steps| == |t0.steps|
      invariant forall c :: 0 <= c < start ==> t.steps[c] == t0.steps[c]
      invariant forall k :: start <= k < start + d ==> t.steps[k] == rhs[k - start]
    {
      StepListed(n, t, start + d, rhs[d]);
      t := AddStep(t, start + d, rhs[d]);
      d := d + 1;
    }
  }

  /** Compile rule `q`; the configurations before it are done. */
  method CompileRule(n: nat, rules: seq<Rule>, t0: Tables, q: nat) returns (t: Tables)
    requires Over(n, rules) && q < |rules| && n <= |t0.steps| == Base(n, rules, |rules|)
    requires RulesLaid(n, rules, t0, q) && Listed(n, t0, Base(n, rules, q)) && Started(n, rules, t0, q)
    requires forall c :: Base(n, rules, q) <= c < |t0.names| ==> t0.names[c].None?
    ensures |t.steps| == |t0.steps| && RulesLaid(n, rules, t, q + 1)
    ensures Listed(n, t, Base(n, rules, q + 1)) && Started(n, rules, t, q + 1)
    ensures forall c :: Base(n, rules, q + 1) <= c < |t.names| ==> t.names[c].None?
    ensures forall c :: 0 <= c < n ==> t.steps[c] == t0.steps[c] && t.names[c] == t0.names[c]
  {
    hide Listed, Started, RulesLaid;
    PartSizes(n, rules, t0, q);
    var rule, start := rules[q], Base(n, rules, q);
    BaseMonotone(n, rules, q, |rules|);
    StartStarted(n, rules, t0, q);
    var t1 := AddStart(t0, start, rule);
    ListedKept(n, t0, t1, start);
    var t2 := CompileSteps(n, t1, start, rule.rhs);
    EndListed(n, t2, start + |rule.rhs|, rule);
    t := AddEnd(t2, start + |rule.rhs|, rule);
    StartedKept(n, rules, t1, t, q + 1);
    OneMoreLaid(n, rules, t0, t, q);
  }

  lemma PartSizes(n: nat, rules: seq<Rule>, t: Tables, q: nat)
    requires q <= |rules| && RulesLaid(n, rules, t, q) && Listed(n, t, Base(n, rules, q)) && Started(n, rules, t, q)
    ensures |t.names| == |t.steps| && |t.starters| == |t.enders| == |t.predictors| == n
  {
  }

  lemma ListedKept(n: nat, t: Tables, t': Tables, m: nat)
    requires Listed(n, t, m) && t' == t.(names := t'.names, starters := t'.starters)
    ensures Listed(n, t', m)
  {
  }

  lemma StartedKept(n: nat, rules: seq<Rule>, t: Tables, t': Tables, q: nat)
    requires q <= |rules| && Started(n, rules, t, q) && t'.starters == t.starters
    ensures Started(n, rules, t', q)
  {
  }

  lemma OneMoreLaid(n: nat, rules: seq<Rule>, t0: Tables, t: Tables, q: nat)
    requires q < |rules| && RulesLaid(n, rules, t0, q) && |t.steps| == |t0.steps| == |t.names|
    requires Base(n, rules, q + 1) <= |t.steps|
    requires var start := Base(n, rules, q);
             (forall c :: 0 <= c < start ==> t.steps[c] == t0.steps[c] && t.names[c] == t0.names[c]) &&
             forall k :: start <= k <= start + |rules[q].rhs| ==>
               t.steps[k] == (if k < start + |rules[q].rhs| then rules[q].rhs[k - start] else rules[q].head - n) &&
               t.names[k] == if k == start then Some((rules[q].head, rules[q].number)) else None
    ensures RulesLaid(n, rules, t, q + 1)
  {
    forall r, d | 0 <= r < q + 1 && 0 <= d <= |rules[r].rhs|
      ensures var c := Dot(n, rules, r, d);
              n <= c < |t.steps| &&
              t.steps[c] == (if d < |rules[r].rhs| then rules[r].rhs[d] else rules[r].head - n) &&
              t.names[c] == if d == 0 then Some((rules[r].head, rules[r].number)) else None
    {
      BaseMonotone(n, rules, r, q + 1);
      if r < q { BaseMonotone(n, rules, r, q); }
    }
  }

  /** All tables of a grammar. */
  method Compile(n: nat, rules: seq<Rule>) returns (t: Tables)
    requires Over(n, rules)
    ensures Layout(n, rules, t)
  {
    if |rules| > 0 { BaseMonotone(n, rules, 0, |rules|); }
    t := CompileTokens(n, Base(n, rules, |rules|));
    var q := 0;
    while q < |rules|
      invariant q <= |rules| && n <= |t.steps| == Base(n, rules, |rules|)
      invariant RulesLaid(n, rules, t, q) && Listed(n, t, Base(n, rules, q)) && Started(n, rules, t, q)
      invariant forall c :: Base(n, rules, q) <= c < |t.names| ==> t.names[c].None?
      invariant forall c: nat :: c < n ==> t.steps[c] == c - n && t.names[c] == Some((c, 0))
    {
      t := CompileRule(n, rules, t, q);
      q := q + 1;
    }
  }

  /** The symbols of a grammar are numbered by their first occurrence, its rules are over them, and
      the goal, the head of the first definition, has number zero. */
  lemma {:induction false} GrammarOver(nts: seq<string>, defs: seq<Def>, all: seq<string>)
    requires Distinct(nts) && Symbols(nts, defs) <= all && Distinct(all)
    ensures Over(|all|, AllRules(defs, all))
    decreases |defs|
  {
    if defs != [] {
      var nts1 := Adjoin(nts, defs[0].head);
      var nts2 := AddRules(nts1, defs[0].rules);
      RulesGrow(nts1, defs[0].rules);
      SymbolsGrow(nts2, defs[1..]);
      GrammarOver(nts2, defs[1..], all);
      assert defs[0].head in nts1;
      NumBelow(defs[0].head, all);
      NumberRulesOver(Num(defs[0].head, all), defs[0].rules, all, 1);
      OverConcat(|all|, NumberRules(Num(defs[0].head, all), defs[0].rules, all, 1), AllRules(defs[1..], all));
    }
  }

  lemma OverConcat(n: nat, rs: seq<Rule>, qs: seq<Rule>)
    requires Over(n, rs) && Over(n, qs)
    ensures Over(n, rs + qs)
  {
  }

  lemma NumBelow(nt: string, nts: seq<string>)
    requires nt in nts
    ensures Num(nt, nts) < |nts|
  {
    IndexNone(nt, nts);
  }

  lemma {:induction false} NumberRulesOver(head: nat, rules: seq<seq<string>>, nts: seq<string>, number: nat)
    requires head < |nts| && forall r, k :: 0 <= r < |rules| && 0 <= k < |rules[r]| ==> rules[r][k] in nts
    ensures Over(|nts|, NumberRules(head, rules, nts, number))
    decreases |rules|
  {
    if rules != [] {
      forall k | 0 <= k < |rules[0]| ensures Num(rules[0][k], nts) < |nts| { NumBelow(rules[0][k], nts); }
      forall r, k | 0 <= r < |rules[1..]| && 0 <= k < |rules[1..][r]| ensures rules[1..][r][k] in nts {
        assert rules[1..][r] == rules[r + 1];
      }
      NumberRulesOver(head, rules[1..], nts, number + 1);
    }
  }

  // ----- derivation trees

  /** A token of a symbol, or a rule with one tree for each symbol of its right-hand side. */
  datatype Tree = Token(nt: nat) | Node(rule: nat, kids: Trees)

  datatype Trees = Nil | Cons(head: Tree, tail: Trees)

  /** How many tokens a tree covers. */
  function Width(t: Tree): nat {
    match t
    case Token(_) => 1
    case Node(_, kids) => Widths(kids)
  }

  function Widths(ts: Trees): nat {
    match ts
    case Nil => 0
    case Cons(t, rest) => Width(t) + Widths(rest)
  }

  /** The tree derives `nt` from the tokens from `i` on. A token stands for each of the symbols that
      the lexer gave it. */
  predicate Derives(rules: seq<Rule>, toks: seq<seq<nat>>, t: Tree, nt: nat, i: nat)
    decreases t
  {
    match t
    case Token(x) => x == nt && i < |toks| && nt in toks[i]
    case Node(r, kids) => r < |rules| && rules[r].head == nt && DerivesAll(rules, toks, kids, rules[r].rhs, i)
  }

  predicate DerivesAll(rules: seq<Rule>, toks: seq<seq<nat>>, ts: Trees, nts: seq<nat>, i: nat)
    decreases ts
  {
    match ts
    case Nil => nts == []
    case Cons(t, rest) => nts != [] && Derives(rules, toks, t, nts[0], i) && DerivesAll(rules, toks, rest, nts[1..], i + Width(t))
  }

  function Snoc(ts: Trees, t: Tree): Trees {
    match ts
    case Nil => Cons(t, Nil)
    case Cons(u, rest) => Cons(u, Snoc(rest, t))
  }

  lemma {:induction false} DerivesSnoc(rules: seq<Rule>, toks: seq<seq<nat>>, ts: Trees, nts: seq<nat>, i: nat, t: Tree, nt: nat)
    requires DerivesAll(rules, toks, ts, nts, i) && Derives(rules, toks, t, nt, i + Widths(ts))
    ensures DerivesAll(rules, toks, Snoc(ts, t), nts + [nt], i) && Widths(Snoc(ts, t)) == Widths(ts) + Width(t)
    decreases ts
  {
    match ts
    case Nil => assert nts + [nt] == [nt];
    case Cons(u, rest) =>
      assert (nts + [nt])[1..] == nts[1..] + [nt];
      DerivesSnoc(rules, toks, rest, nts[1..], i + Width(u), t, nt);
  }

  /** A tree stays within the tokens. */
  lemma {:induction false} DerivesWithin(rules: seq<Rule>, toks: seq<seq<nat>>, t: Tree, nt: nat, i: nat)
    requires Derives(rules, toks, t, nt, i) && i <= |toks|
    ensures i + Width(t) <= |toks|
    decreases t
  {
    if t.Node? { DerivesAllWithin(rules, toks, t.kids, rules[t.rule].rhs, i); }
  }

  lemma {:induction false} DerivesAllWithin(rules: seq<Rule>, toks: seq<seq<nat>>, ts: Trees, nts: seq<nat>, i: nat)
    requires DerivesAll(rules, toks, ts, nts, i) && i <= |toks|
    ensures i + Widths(ts) <= |toks|
    decreases ts
  {
    if ts.Cons? {
      DerivesWithin(rules, toks, ts.head, nts[0], i);
      DerivesAllWithin(rules, toks, ts.tail, nts[1..], i + Width(ts.head));
    }
  }
}
