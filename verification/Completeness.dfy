/** When the tables hold what the LALR(1) lookaheads call for, and nothing else competes, the
    generated parser accepts every sentence of the grammar. */
module Completeness {
  import opened Grammars
  import opened Items
  import opened Lookaheads
  import opened Propagation
  import opened Actions
  import opened Tables
  import opened Parsing

  /** The LALR(1) lookaheads call for reducing by rule r in state i on the token. */
  ghost predicate Calls(f: Facts, m: Automaton, i: int, r: nat, token: nat) {
    0 < r && HasRule(f.g, r) && Spreads(f, m, i, Lr0(r, |Rhs(f.g, r)|), token)
  }

  /** Where a reduction is called for, nothing else is. */
  ghost predicate ConflictFree(f: Facts, m: Automaton) {
    forall i, r: nat, token: nat :: Calls(f, m, i, r, token) ==> Alone(f, m, i, r, token)
  }

  ghost predicate Alone(f: Facts, m: Automaton, i: int, r: nat, token: nat) {
    && (token > ENDTOK ==> !Expects(f.g, m, i, token)) && !(i == 1 && token == ENDTOK)
    && forall q: nat :: Calls(f, m, i, q, token) ==> q == r
  }

  /** The tables reduce where that is called for, shift where a token is expected, and accept. */
  ghost predicate Obeys(f: Facts, m: Automaton, t: Table) {
    && (forall i: nat, r: nat, token: nat :: i < |m.kernels| && token <= f.g.ntokens && Calls(f, m, i, r, token) ==>
          Decode(t, i, token) + r == 0)
    && (forall i: nat, token: nat :: i < |m.kernels| && ENDTOK < token <= f.g.ntokens && Expects(f.g, m, i, token) ==>
          Trans(f.g, m, i, token, Decode(t, i, token)))
    && Decode(t, 1, ENDTOK) == ACCEPTCODE
  }

  // ------------------------------------------------------------------ steps

  lemma {:induction false} RunOn(t: Table, input: seq<nat>, a: Config, b: Config, n: nat, fuel: nat)
    requires StepsTo(t, input, a, b, n)
    ensures RunFor(t, input, a, n + fuel) == RunFor(t, input, b, fuel)
    decreases n
  {
    hide ActionAt, After;
    if n > 0 {
      RunOn(t, input, After(t, input, a), b, n - 1, fuel);
    }
  }

  /** An outcome stays what it is when there is more fuel. */
  lemma {:induction false} RunStable(t: Table, input: seq<nat>, c: Config, fuel: nat, more: nat)
    requires fuel <= more && RunFor(t, input, c, fuel) != Running
    ensures RunFor(t, input, c, more) == RunFor(t, input, c, fuel)
    decreases fuel
  {
    hide ActionAt, After;
    if OutcomeOf(ActionAt(t, input, c)) == Running {
      RunStable(t, input, After(t, input, c), fuel - 1, more - 1);
    }
  }

  // ------------------------------------------------------------------ one tree

  /** How many steps it takes to read a tree: a shift for each leaf, a reduction for each node. */
  ghost function Size(tree: Tree): nat
    decreases tree, 1
  {
    match tree
    case Leaf(_) => 1
    case Node(_, kids) => Sizes(kids) + 1
  }

  ghost function Sizes(trees: seq<Tree>): nat
    decreases trees, 0
  {
    if trees == [] then 0 else Size(trees[0]) + Sizes(trees[1..])
  }

  lemma {:induction false} SizesConcat(s: seq<Tree>, t: seq<Tree>)
    ensures Sizes(s + t) == Sizes(s) + Sizes(t)
  {
    if s == [] {
      assert s + t == t;
    } else {
      assert (s + t)[1..] == s[1..] + t;
      SizesConcat(s[1..], t);
    }
  }

  lemma SizesOne(t: Tree)
    ensures Sizes([t]) == Size(t)
  {
    assert [t][1..] == [];
  }

  ghost predicate Setting(f: Facts, m: Automaton, t: Table, input: seq<nat>) {
    FactsOk(f) && Drives(f.g, m, t) && Obeys(f, m, t) && InputOk(f.g, input)
  }

  /** w stands in the input at pos. */
  ghost predicate StandsAt(input: seq<nat>, pos: nat, w: seq<int>) {
    pos + |w| <= |input| && forall k :: 0 <= k < |w| ==> input[pos + k] == w[k]
  }

  lemma StandsSplit(input: seq<nat>, pos: nat, u: seq<int>, v: seq<int>)
    requires StandsAt(input, pos, u + v)
    ensures StandsAt(input, pos, u) && StandsAt(input, pos + |u|, v)
  {
    assert forall k :: 0 <= k < |u| ==> (u + v)[k] == u[k];
    forall k | 0 <= k < |v|
      ensures input[pos + |u| + k] == v[k]
    {
      assert (u + v)[|u| + k] == v[k] && input[pos + (|u| + k)] == (u + v)[|u| + k];
    }
  }

  /** The top of the stack. */
  ghost predicate TopIs(g: Grammar, m: Automaton, states: seq<int>, syms: seq<int>, i: int) {
    Path(g, m, states, syms) && states[|syms|] == i && 0 <= i < |m.kernels|
  }

  /** A token that an item of the closure has after its dot is shifted. */
  lemma ShiftsToken(f: Facts, m: Automaton, t: Table, input: seq<nat>, states: seq<int>, syms: seq<int>, i: int,
                    pos: nat, p: Lr0)
    requires Setting(f, m, t, input) && TopIs(f.g, m, states, syms, i) && pos < |input|
    requires InClosure(f.g, m.kernels[i], p) && ValidItem(f.g, p) && Next(f.g, p) == input[pos]
    ensures var j := Decode(t, i, input[pos]);
      Trans(f.g, m, i, input[pos], j) && StepsTo(t, input, Config(states, pos), Config(states + [j], pos + 1), 1)
  {
    hide FactsOk, InClosure, Decode, IsCollection, WellFormed, TableInside, IsGoto;
    var c := Config(states, pos);
    assert Expects(f.g, m, i, input[pos]);
    OneStep(t, input, c);
  }

  lemma AfterRule(g: Grammar, t: Table, states: seq<int>, states': seq<int>, i: int, r: nat)
    requires WellFormed(g) && RulesRight(g, t.r1, t.r2) && 0 < r < |g.prods| && HasRule(g, r)
    requires states != [] && states[|states| - 1] == i >= 0 && Lhs(g, r) >= NTBASE
    requires |states'| == |states| + |Rhs(g, r)| && states'[..|states|] == states
    ensures AfterReduction(t, states', r) == states + [GotoOf(t, i, Lhs(g, r) - NTBASE)]
  {
    hide GotoOf;
    RuleShape(g, r);
    assert states'[|states| - 1] == states[|states| - 1];
  }

  lemma SettingFacts(f: Facts, m: Automaton, t: Table, input: seq<nat>)
    requires Setting(f, m, t, input)
    ensures WellFormed(f.g) && RulesRight(f.g, t.r1, t.r2) && forall pos :: 1 <= TokenAt(input, pos) <= f.g.ntokens
  {
    hide FactsOk, IsCollection, TableInside, ExcaOk, Trans, Decode;
  }

  lemma SettingGoto(f: Facts, m: Automaton, t: Table, input: seq<nat>, i: nat, x: int)
    requires Setting(f, m, t, input) && i < |m.kernels| && NTBASE < x <= NTBASE + f.g.nnonter && Expects(f.g, m, i, x)
    ensures Trans(f.g, m, i, x, GotoOf(t, i, x - NTBASE))
  {
    hide FactsOk, IsCollection, TableInside, ExcaOk, Trans, Decode, WellFormed, GotoOf, Expects;
    var c: nat := x - NTBASE;
    assert GotoFits(f.g, m, t, i, c) && NTBASE + c == x;
  }

  lemma SettingReduce(f: Facts, m: Automaton, t: Table, input: seq<nat>, i: nat, r: nat, token: nat)
    requires Setting(f, m, t, input) && i < |m.kernels| && token <= f.g.ntokens && Calls(f, m, i, r, token)
    ensures Decode(t, i, token) + r == 0
  {
    hide FactsOk, Drives, Trans, Decode, Expects, Calls;
  }

  lemma ReductionStep(t: Table, input: seq<nat>, c: Config, r: nat)
    requires ActionAt(t, input, c) + r == 0 && r > 0
    ensures OutcomeOf(ActionAt(t, input, c)) == Running
    ensures After(t, input, c) == Config(AfterReduction(t, c.states, r), c.pos)
  {
    hide ActionAt, AfterReduction;
  }

  /** A reduction that is called for takes the right-hand side off and enters the goto. */
  lemma ReducesRule(f: Facts, m: Automaton, t: Table, input: seq<nat>, states: seq<int>, i: int, states': seq<int>,
                    pos: nat, r: nat)
    requires Setting(f, m, t, input) && states != [] && states[|states| - 1] == i && 0 <= i < |m.kernels|
    requires HasRule(f.g, r) && |states'| == |states| + |Rhs(f.g, r)| && states'[..|states|] == states
    requires 0 <= states'[|states'| - 1] < |m.kernels| && Calls(f, m, states'[|states'| - 1], r, TokenAt(input, pos))
    requires r > 0 && NTBASE < Lhs(f.g, r) <= NTBASE + f.g.nnonter && Expects(f.g, m, i, Lhs(f.g, r))
    ensures var j := GotoOf(t, i, Lhs(f.g, r) - NTBASE);
      Trans(f.g, m, i, Lhs(f.g, r), j) && StepsTo(t, input, Config(states', pos), Config(states + [j], pos), 1)
  {
    hide Setting, Decode, Trans, Expects, GotoOf, Calls, AfterReduction, RulesRight, After, OutcomeOf, StepsTo,
      WellFormedRule;
    var c, top := Config(states', pos), states'[|states'| - 1];
    SettingFacts(f, m, t, input);
    RuleShape(f.g, r);
    SettingReduce(f, m, t, input, top, r, TokenAt(input, pos));
    SettingGoto(f, m, t, input, i, Lhs(f.g, r));
    AfterRule(f.g, t, states, states', i, r);
    ReductionStep(t, input, c, r);
    OneStep(t, input, c);
  }

  /** The token that follows a symbol of a right-hand side spreads to the rules for the symbol. */
  lemma FollowSpreads(f: Facts, m: Automaton, i: int, it: Lr0, rest: seq<Tree>, input: seq<nat>, pos: nat, la: nat,
                      r: nat)
    requires FactsOk(f) && 0 <= i < |m.kernels| && InClosure(f.g, m.kernels[i], it) && Spreads(f, m, i, it, la)
    requires Introduces(f.g, it, r) && it.dot < |Rhs(f.g, it.rule)| && ValidAll(f.g, rest)
    requires Roots(f.g, rest) == RestOf(f.g, it)
    requires InputOk(f.g, input) && StandsAt(input, pos, Yields(rest)) && la == TokenAt(input, pos + |Yields(rest)|)
    ensures Spreads(f, m, i, Lr0(r, 0), TokenAt(input, pos))
  {
    hide InClosure, Spreads;
    var form, v, t := RestOf(f.g, it), Yields(rest), TokenAt(input, pos);
    RuleShape(f.g, it.rule);
    forall s | s in form
      ensures IsToken(f.g, s) || IsNonter(f.g, s)
    {
      assert s in Rhs(f.g, it.rule);
    }
    ForestDerives(f.g, rest);
    RestLookExact(f, form, if v == [] then {t} else {}, t);
    if v != [] {
      assert input[pos] == v[0] && Follows(f.g, form, {}, t);
    } else {
      assert Follows(f.g, form, {t}, t);
    }
    SpreadWithin(f, m, i, it, r, t);
  }

  lemma TopState(g: Grammar, m: Automaton, states: seq<int>, syms: seq<int>, i: int)
    requires TopIs(g, m, states, syms, i)
    ensures |states| == |syms| + 1 && states[|states| - 1] == i && 0 <= i < |m.kernels|
  {
    hide Trans;
  }

  /** The parser reads a tree: from a state whose closure looks for the tree's root, over the
      tree's yield, to the state behind the root. */
  lemma {:induction false} ReadsTree(f: Facts, m: Automaton, t: Table, input: seq<nat>, states: seq<int>,
                                     syms: seq<int>, i: int, pos: nat, p: Lr0, tree: Tree) returns (j: int)
    requires Setting(f, m, t, input) && TopIs(f.g, m, states, syms, i)
    requires InClosure(f.g, m.kernels[i], p) && ValidItem(f.g, p) && p.dot < |Rhs(f.g, p.rule)|
    requires Next(f.g, p) == Root(f.g, tree)
    requires Valid(f.g, tree) && StandsAt(input, pos, Yield(tree))
    requires tree.Node? ==> Spreads(f, m, i, Lr0(tree.rule, 0), TokenAt(input, pos + |Yield(tree)|))
    ensures Trans(f.g, m, i, Root(f.g, tree), j)
    ensures StepsTo(t, input, Config(states, pos), Config(states + [j], pos + |Yield(tree)|), Size(tree))
    decreases tree, 1, 0
  {
    hide Setting, InClosure, Spreads, Trans, Path, StepsTo, WellFormed;
    match tree
    case Leaf(x) =>
      assert Yield(tree) == [x] && input[pos] == [x][0];
      ShiftsToken(f, m, t, input, states, syms, i, pos, p);
      j := Decode(t, i, input[pos]);
    case Node(r, kids) =>
      var end, rhs := pos + |Yields(kids)|, Rhs(f.g, r);
      SettingFacts(f, m, t, input);
      NodeRule(f.g, p, r);
      ClosedUnderIntroduction(f.g, m.kernels[i], p, r);
      assert kids[0..] == kids && kids[0..|kids|] == kids;
      var states', syms' := ReadsKids(f, m, t, input, states, syms, i, pos, r, kids, 0, |kids|, TokenAt(input, end));
      TopState(f.g, m, states, syms, i);
      RuleShape(f.g, r);
      assert Expects(f.g, m, i, Lhs(f.g, r));
      ReducesRule(f, m, t, input, states, i, states', end, r);
      j := GotoOf(t, i, Lhs(f.g, r) - NTBASE);
      StepsOn(t, input, Config(states, pos), Config(states', end), Config(states + [j], end), Sizes(kids), 1);
  }

  lemma NodeRule(g: Grammar, p: Lr0, r: nat)
    requires WellFormed(g) && ValidItem(g, p) && p.dot < |Rhs(g, p.rule)| && HasRule(g, r) && Next(g, p) == Lhs(g, r)
    ensures r > 0 && Introduces(g, p, r)
  {
    RuleShape(g, p.rule);
    RuleShape(g, r);
    assert Next(g, p) in Rhs(g, p.rule);
  }

  /** The symbols k to e of the right-hand side of rule r. */
  lemma {:induction false} ReadsKids(f: Facts, m: Automaton, t: Table, input: seq<nat>, states: seq<int>,
                                     syms: seq<int>, i: int, pos: nat, r: nat, kids: seq<Tree>, k: nat, e: nat, la: nat)
    returns (states': seq<int>, syms': seq<int>)
    requires Setting(f, m, t, input) && TopIs(f.g, m, states, syms, i)
    requires HasRule(f.g, r) && ValidAll(f.g, kids) && Roots(f.g, kids) == Rhs(f.g, r) && k <= e <= |kids|
    requires Spreads(f, m, i, Lr0(r, k), la)
    requires StandsAt(input, pos, Yields(kids[k..])) && la == TokenAt(input, pos + |Yields(kids[k..])|)
    ensures |states'| == |states| + e - k && states'[..|states|] == states && syms' == syms + Roots(f.g, kids[k..e])
    ensures TopIs(f.g, m, states', syms', states'[|states'| - 1])
    ensures Spreads(f, m, states'[|states'| - 1], Lr0(r, e), la)
    ensures StepsTo(t, input, Config(states, pos), Config(states', pos + |Yields(kids[k..e])|), Sizes(kids[k..e]))
    decreases kids, 0, e - k
  {
    hide Setting, InClosure, SpreadsIn, Trans, StepsTo, WellFormed;
    if k == e {
      states', syms' := states, syms;
      assert kids[k..e] == [];
      NoSteps(t, input, Config(states, pos));
    } else {
      var kid, rest, it := kids[k], kids[k + 1..], Lr0(r, k);
      var some := kids[k + 1..e];
      assert kids[k..][0] == kid && kids[k..][1..] == rest;
      assert kids[k..e][0] == kid && kids[k..e][1..] == some;
      StandsSplit(input, pos, Yield(kid), Yields(rest));
      var mid := pos + |Yield(kid)|;
      assert kid in kids && Roots(f.g, kids)[k] == Rhs(f.g, r)[k];
      SpreadInClosure(f, m, i, it, la);
      if kid.Node? {
        KidFollows(f, m, t, i, r, kids, k, la, input, mid);
      }
      var j := ReadsTree(f, m, t, input, states, syms, i, pos, it, kid);
      assert Moves(f.g, m, i, Lr0(r, k + 1), j);
      SpreadAcross(f, m, i, Lr0(r, k + 1), la, j);
      PathGrows(f.g, m, states, syms, Root(f.g, kid), j);
      states', syms' := ReadsKids(f, m, t, input, states + [j], syms + [Root(f.g, kid)], j, mid, r, kids, k + 1, e, la);
      StepsOn(t, input, Config(states, pos), Config(states + [j], mid), Config(states', mid + |Yields(some)|),
              Size(kid), Sizes(some));
      assert states'[..|states|] == states'[..|states| + 1][..|states|];
      assert Roots(f.g, kids[k..e]) == [Root(f.g, kid)] + Roots(f.g, some);
    }
  }

  lemma NoSteps(t: Table, input: seq<nat>, c: Config)
    ensures StepsTo(t, input, c, c, 0)
  {
  }

  lemma SpreadInClosure(f: Facts, m: Automaton, i: int, it: Lr0, t: nat)
    requires Spreads(f, m, i, it, t)
    ensures 0 <= i < |m.kernels| && InClosure(f.g, m.kernels[i], it)
  {
  }

  lemma PathGrows(g: Grammar, m: Automaton, states: seq<int>, syms: seq<int>, x: int, j: int)
    requires Path(g, m, states, syms) && Trans(g, m, states[|syms|], x, j)
    ensures TopIs(g, m, states + [j], syms + [x], j)
  {
    hide IsGoto;
  }

  /** What follows kid k spreads to the kid's rule. */
  lemma KidFollows(f: Facts, m: Automaton, t: Table, i: int, r: nat, kids: seq<Tree>, k: nat, la: nat, input: seq<nat>,
                   mid: nat)
    requires Setting(f, m, t, input) && HasRule(f.g, r) && ValidAll(f.g, kids) && Roots(f.g, kids) == Rhs(f.g, r)
    requires k < |kids| && kids[k].Node? && Valid(f.g, kids[k]) && Spreads(f, m, i, Lr0(r, k), la)
    requires StandsAt(input, mid, Yields(kids[k + 1..])) && la == TokenAt(input, mid + |Yields(kids[k + 1..])|)
    ensures Spreads(f, m, i, Lr0(kids[k].rule, 0), TokenAt(input, mid))
  {
    hide Drives, Obeys, FactsOk, InClosure, Spreads, WellFormed;
    var rest, it := kids[k + 1..], Lr0(r, k);
    assert Roots(f.g, kids)[k] == Rhs(f.g, r)[k] == Lhs(f.g, kids[k].rule);
    assert Roots(f.g, rest) == RestOf(f.g, it);
    SpreadInClosure(f, m, i, it, la);
    SettingFacts(f, m, t, input);
    NodeRule(f.g, it, kids[k].rule);
    FollowSpreads(f, m, i, it, rest, input, mid, la, kids[k].rule);
  }

  // ------------------------------------------------------------------ every sentence

  /** Where parsing starts: the closure of state 0 looks for the start symbol, before $end. */
  lemma StartPlace(f: Facts, m: Automaton, t: Table, input: seq<nat>, tree: Tree)
    requires Setting(f, m, t, input) && Valid(f.g, tree) && Root(f.g, tree) == Start(f.g)
    ensures TopIs(f.g, m, [0], [], 0) && InClosure(f.g, m.kernels[0], StartItem)
    ensures ValidItem(f.g, StartItem) && 0 < |Rhs(f.g, 0)| && Next(f.g, StartItem) == Start(f.g)
    ensures tree.Node? ==> Spreads(f, m, 0, Lr0(tree.rule, 0), ENDTOK)
    ensures forall j :: Trans(f.g, m, 0, Start(f.g), j) ==> j == 1
  {
    hide FactsOk, Obeys, TableInside, Spreads, ClosedUnderGoto, ExcaOk, IsGoto;
    RuleShape(f.g, 0);
    assert Rhs(f.g, 0) == [Start(f.g), ENDTOK];
    if tree.Node? {
      NodeRule(f.g, StartItem, tree.rule);
      assert RestOf(f.g, StartItem) == [ENDTOK];
      assert ENDTOK in PassesOn(f, StartItem, {});
      SpreadWithin(f, m, 0, StartItem, tree.rule, ENDTOK);
    }
    forall j | Trans(f.g, m, 0, Start(f.g), j)
      ensures j == 1
    {
      TransUnique(f.g, m, 0, Start(f.g), j, 1);
    }
  }

  lemma AcceptsAtEnd(f: Facts, m: Automaton, t: Table, input: seq<nat>)
    requires Setting(f, m, t, input)
    ensures RunFor(t, input, Config([0] + [1], |input|), 1) == Accepted
  {
    hide FactsOk, Drives, Decode;
    assert ([0] + [1])[1] == 1;
  }

  /** The parser accepts every sentence of the grammar, given time. */
  lemma {:induction false} AcceptsSentence(f: Facts, m: Automaton, t: Table, input: seq<nat>) returns (n: nat)
    requires Setting(f, m, t, input) && Derives(f.g, [Start(f.g)], input)
    ensures forall fuel :: fuel >= n ==> RunFor(t, input, Config([0], 0), fuel) == Accepted
  {
    hide Derives, Spreads, InClosure, StepsTo, RunFor, Setting, TopIs, WellFormed, Trans;
    SettingFacts(f, m, t, input);
    var tree := TreeOf(f.g, Start(f.g), input);
    StartPlace(f, m, t, input, tree);
    assert StandsAt(input, 0, Yield(tree));
    var j := ReadsTree(f, m, t, input, [0], [], 0, 0, StartItem, tree);
    var k := Size(tree);
    AcceptsAtEnd(f, m, t, input);
    RunOn(t, input, Config([0], 0), Config([0] + [j], |input|), k, 1);
    n := k + 1;
    forall fuel | fuel >= n
      ensures RunFor(t, input, Config([0], 0), fuel) == Accepted
    {
      RunStable(t, input, Config([0], 0), n, fuel);
    }
  }

  /** So it never rejects one. */
  lemma {:induction false} NeverRejects(f: Facts, m: Automaton, t: Table, input: seq<nat>, fuel: nat)
    requires Setting(f, m, t, input) && Derives(f.g, [Start(f.g)], input)
    ensures RunFor(t, input, Config([0], 0), fuel) != Rejected
  {
    hide Setting, RunFor, Derives;
    var n := AcceptsSentence(f, m, t, input);
    if RunFor(t, input, Config([0], 0), fuel) == Rejected {
      RunStable(t, input, Config([0], 0), fuel, if n > fuel then n else fuel);
    }
  }
}
