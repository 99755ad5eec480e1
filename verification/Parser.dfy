/** The generated parser (Parse in yaccpartext, cmd/goyacc/yacc.go), up to its first error,
    and runMachine, which runs the uncompressed rows. */
module Parsing {
  import opened Grammars
  import opened Items
  import opened KernelStore
  import opened Actions
  import opened Placement
  import opened Tables

  // ------------------------------------------------------------------ what a table promises

  /** The parser's tables fit the automaton: every action they hold can be taken, every goto
      that is needed is there. */
  ghost predicate Drives(g: Grammar, m: Automaton, t: Table) {
    && WellFormed(g) && IsCollection(g, m) && 1 < |m.kernels| < NSTATES && Trans(g, m, 0, Start(g), 1)
    && RulesRight(g, t.r1, t.r2)
    && TableInside(t, |m.kernels|) && |t.pgo| == g.nnonter + 1 && ExcaOk(t)
    && (forall i: nat, token: nat :: i < |m.kernels| && 1 <= token <= g.ntokens ==> ActionFits(g, m, t, i, token))
    && forall i: nat, c: nat :: 1 <= c <= g.nnonter && i < |m.kernels| ==> GotoFits(g, m, t, i, c)
  }

  ghost predicate ActionFits(g: Grammar, m: Automaton, t: Table, i: nat, token: nat) {
    ActionOk(g, m, i, token, Decode(t, i, token)) && Decode(t, i, token) != 0
  }

  ghost predicate GotoFits(g: Grammar, m: Automaton, t: Table, i: nat, c: nat) {
    Expects(g, m, i, NTBASE + c) ==> Trans(g, m, i, NTBASE + c, GotoOf(t, i, c))
  }

  /** The parser stays inside its tables. */
  ghost predicate TableInside(t: Table, n: nat) {
    && |t.pact| == |t.def| == |t.chk| == n && |t.act| == t.last
    && (forall q :: 0 <= q < |t.act| ==> 0 <= t.act[q] < n)
    && (forall i :: 0 <= i < n ==> t.def[i] >= 0 || t.def[i] == -2)
    && forall c :: 1 <= c < |t.pgo| ==> 0 <= t.pgo[c] < t.last
  }

  ghost predicate ExcaOk(t: Table) {
    forall i: nat, token: nat :: i < |t.def| && t.def[i] == -2 ==> ExcaHas(t.exca, i, token)
  }

  /** The searches in the exception table succeed. */
  ghost predicate ExcaHas(exca: seq<(int, int)>, i: nat, token: nat) {
    var h := FindHeader(exca, i, 0);
    h < |exca| && FindToken(exca, token, h + 1) < |exca|
  }

  // ------------------------------------------------------------------ the stack

  /** The stack is a path of the automaton, and the trees of its symbols have read the part
      of the input that is consumed. */
  ghost predicate StackOk(g: Grammar, m: Automaton, states: seq<int>, syms: seq<int>, trees: seq<Tree>, read: seq<int>)
    {
    && Path(g, m, states, syms) && ValidAll(g, trees) && Roots(g, trees) == syms && Yields(trees) == read
  }

  lemma StackTop(g: Grammar, m: Automaton, states: seq<int>, syms: seq<int>, trees: seq<Tree>, read: seq<int>)
    requires IsCollection(g, m) && StackOk(g, m, states, syms, trees, read)
    ensures |states| == |syms| + 1 == |trees| + 1
    ensures forall k :: 0 <= k < |states| ==> 0 <= states[k] < |m.kernels|
  {
    forall k | 0 <= k < |states|
      ensures 0 <= states[k] < |m.kernels|
    {
      PathState(g, m, states, syms, k);
    }
  }

  lemma StackPush(g: Grammar, m: Automaton, states: seq<int>, syms: seq<int>, trees: seq<Tree>, read: seq<int>, x: int,
                  s: int)
    requires StackOk(g, m, states, syms, trees, read) && Trans(g, m, states[|syms|], x, s)
    ensures StackOk(g, m, states + [s], syms + [x], trees + [Leaf(x)], read + [x])
  {
    YieldsConcat(trees, [Leaf(x)]);
    YieldsOne(Leaf(x));
    assert Yield(Leaf(x)) == [x];
    assert Roots(g, trees + [Leaf(x)]) == Roots(g, trees) + [x];
  }

  /** The stack after a reduction, and why it is one again: nothing below the bottom is
      touched, and the exposed state has a goto on the left-hand side. */
  lemma StackReduce(g: Grammar, m: Automaton, states: seq<int>, syms: seq<int>, trees: seq<Tree>, read: seq<int>,
                    r: nat)
    requires WellFormed(g) && IsCollection(g, m) && StackOk(g, m, states, syms, trees, read)
    requires Reducible(g, m, states[|syms|], r)
    ensures |Rhs(g, r)| <= |syms| == |trees| && Lhs(g, r) > NTBASE && Lhs(g, r) <= NTBASE + g.nnonter
    ensures var n := |syms| - |Rhs(g, r)|; n < |states| && Expects(g, m, states[n], Lhs(g, r))
    ensures var n := |syms| - |Rhs(g, r)|; forall s :: Trans(g, m, states[n], Lhs(g, r), s) ==>
      StackOk(g, m, states[..n + 1] + [s], syms[..n] + [Lhs(g, r)], trees[..n] + [Node(r, trees[n..])], read)
  {
    hide IsCollection, Trans, Expects, Reducible, WellFormed;
    ReducibleRule(g, m, states[|syms|], r);
    ReduceExposes(g, m, states, syms, r);
    RuleShape(g, r);
    var n := |syms| - |Rhs(g, r)|;
    var node := Node(r, trees[n..]);
    assert Roots(g, trees[n..]) == syms[n..] == Rhs(g, r);
    assert Valid(g, node);
    assert trees == trees[..n] + trees[n..];
    YieldsConcat(trees[..n], trees[n..]);
    YieldsConcat(trees[..n], [node]);
    YieldsOne(node);
    assert Roots(g, trees[..n] + [node]) == syms[..n] + [Lhs(g, r)];
    forall s | Trans(g, m, states[n], Lhs(g, r), s)
      ensures StackOk(g, m, states[..n + 1] + [s], syms[..n] + [Lhs(g, r)], trees[..n] + [node], read)
    {
    }
  }

  lemma ReducibleRule(g: Grammar, m: Automaton, i: int, r: nat)
    requires IsCollection(g, m) && Reducible(g, m, i, r)
    ensures KernelsOk(g, m) && 0 < r < |g.prods| && HasRule(g, r) && 0 <= i < |m.kernels|
    ensures InClosure(g, m.kernels[i], Lr0(r, |Rhs(g, r)|))
  {
  }

  /** Accepting: the stack is the start symbol alone, which has derived what was read. */
  lemma StackAccept(g: Grammar, m: Automaton, states: seq<int>, syms: seq<int>, trees: seq<Tree>, read: seq<int>)
    requires WellFormed(g) && IsCollection(g, m) && StackOk(g, m, states, syms, trees, read)
    requires |m.kernels| > 1 && Trans(g, m, 0, Start(g), 1) && states[|syms|] == 1
    ensures syms == [Start(g)] && Derives(g, [Start(g)], read)
  {
    RuleShape(g, 0);
    assert InGoto(g, m.kernels[0], Start(g), Lr0(0, 1));
    assert Lr0(0, 1) in m.kernels[1];
    AcceptPath(g, m, states, syms);
    ForestDerives(g, trees);
  }

  /** What the stack's symbols mean at any time. */
  lemma StackDerives(g: Grammar, m: Automaton, states: seq<int>, syms: seq<int>, trees: seq<Tree>, read: seq<int>)
    requires StackOk(g, m, states, syms, trees, read)
    ensures Derives(g, syms, read)
  {
    ForestDerives(g, trees);
  }

  /** No state is entered by the end marker, so it is never shifted. */
  lemma EndNotShifted(g: Grammar, m: Automaton, i: int, s: int)
    requires IsCollection(g, m)
    ensures !Trans(g, m, i, ENDTOK, s)
  {
    assert 0 < s < |m.kernels| ==> HasPredecessor(g, m, s);
  }

  // ------------------------------------------------------------------ the parser

  datatype Outcome = Running | Accepted | Rejected

  function TokenAt(input: seq<nat>, pos: nat): nat {
    if pos < |input| then input[pos] else ENDTOK
  }

  /** The stack of states and the place in the input. */
  datatype Config = Config(states: seq<int>, pos: nat)

  /** The action of the tables at the top of the stack, on the next token. */
  ghost function ActionAt(t: Table, input: seq<nat>, c: Config): int {
    if c.states == [] || c.states[|c.states| - 1] < 0 then ERRCODE
    else Decode(t, c.states[|c.states| - 1], TokenAt(input, c.pos))
  }

  ghost function OutcomeOf(action: int): Outcome {
    if action == ACCEPTCODE then Accepted else if action == ERRCODE then Rejected else Running
  }

  ghost function After(t: Table, input: seq<nat>, c: Config): Config {
    var action := ActionAt(t, input, c);
    if IsShift(action) then Config(c.states + [action], c.pos + 1)
    else if action < 0 then Config(AfterReduction(t, c.states, 0 - action), c.pos)
    else c
  }

  /** The stack after a reduction by rule r: the right-hand side gone, the goto on the left-hand
      side in its place. */
  ghost function AfterReduction(t: Table, states: seq<int>, r: int): seq<int> {
    if 0 <= r < |t.r1| == |t.r2| && t.r1[r] >= 0 && 0 <= t.r2[r] < |states| && states[|states| - 1 - t.r2[r]] >= 0 then
      states[..|states| - t.r2[r]] + [GotoOf(t, states[|states| - 1 - t.r2[r]], t.r1[r])]
    else states
  }

  /** What the tables make of the input, in a given number of steps. */
  ghost function RunFor(t: Table, input: seq<nat>, c: Config, fuel: nat): Outcome
    decreases fuel
  {
    if fuel == 0 then Running
    else if OutcomeOf(ActionAt(t, input, c)) != Running then OutcomeOf(ActionAt(t, input, c))
    else RunFor(t, input, After(t, input, c), fuel - 1)
  }

  /** In n steps the tables lead from one configuration to another. */
  ghost predicate StepsTo(t: Table, input: seq<nat>, c: Config, c': Config, n: nat)
    decreases n
  {
    if n == 0 then c' == c
    else OutcomeOf(ActionAt(t, input, c)) == Running && StepsTo(t, input, After(t, input, c), c', n - 1)
  }

  lemma {:induction false} StepsOn(t: Table, input: seq<nat>, a: Config, b: Config, c: Config, n: nat, k: nat)
    requires StepsTo(t, input, a, b, n) && StepsTo(t, input, b, c, k)
    ensures StepsTo(t, input, a, c, n + k)
    decreases n
  {
    hide ActionAt, After;
    if n > 0 {
      StepsOn(t, input, After(t, input, a), b, c, n - 1, k);
    }
  }

  lemma OneStep(t: Table, input: seq<nat>, a: Config)
    requires OutcomeOf(ActionAt(t, input, a)) == Running
    ensures StepsTo(t, input, a, After(t, input, a), 1)
  {
    hide ActionAt, After;
    assert StepsTo(t, input, After(t, input, a), After(t, input, a), 0);
  }

  ghost predicate InputOk(g: Grammar, input: seq<nat>) {
    forall k :: 0 <= k < |input| ==> ENDTOK < input[k] <= g.ntokens
  }

  /** The right-hand side of rule r has come off the stack, and the automaton's move over the
      left-hand side is on it. */
  ghost predicate PopsTo(g: Grammar, m: Automaton, states: seq<int>, states': seq<int>, r: int) {
    && 0 < r && HasRule(g, r) && |Rhs(g, r)| < |states|
    && var n := |states| - |Rhs(g, r)|;
    |states'| == n + 1 && states'[..n] == states[..n] && Trans(g, m, states[n - 1], Lhs(g, r), states'[n])
  }

  /** The action that ends a run. */
  function EndCode(outcome: Outcome): int {
    if outcome == Accepted then ACCEPTCODE else if outcome == Rejected then ERRCODE else 0
  }

  class Parser {
    const t: Table
    const input: seq<nat>
    var states: seq<int>
    var token: int
    var pos: nat
    ghost const g: Grammar
    ghost const m: Automaton
    ghost var syms: seq<int>
    ghost var trees: seq<Tree>

    ghost predicate Valid()
      reads this
    {
      && Drives(g, m, t) && InputOk(g, input) && pos <= |input| && (token == -1 || token == TokenAt(input, pos))
      && StackOk(g, m, states, syms, trees, input[..pos])
    }

    constructor (t: Table, input: seq<nat>, ghost g: Grammar, ghost m: Automaton)
      requires Drives(g, m, t) && InputOk(g, input)
      ensures Valid() && this.g == g && this.m == m && this.t == t && this.input == input && pos == 0 && states == [0]
    {
      this.t, this.input, this.g, this.m := t, input, g, m;
      states, token, pos := [0], -1, 0;
      syms, trees := [], [];
    }

    /** lex1, when no token is at hand. */
    method Peek()
      requires Valid()
      modifies `token
      ensures Valid() && token == TokenAt(input, pos)
    {
      if token < 0 {
        token := TokenAt(input, pos);
      }
    }

    /** The search through the exception table. */
    method SearchExca(state: nat) returns (n: int)
      requires token >= 0 && ExcaHas(t.exca, state, token)
      ensures n == Exception(t.exca, state, token)
    {
      var xi := 0;
      while true
        invariant xi <= |t.exca| && FindHeader(t.exca, state, 0) == FindHeader(t.exca, state, xi)
        decreases |t.exca| - xi
      {
        if t.exca[xi] == (-1, state as int) {
          break;
        }
        xi := xi + 1;
      }
      ghost var h := xi;
      xi := xi + 1;
      while true
        invariant h < xi <= |t.exca| && FindToken(t.exca, token, h + 1) == FindToken(t.exca, token, xi)
        decreases |t.exca| - xi
      {
        n := t.exca[xi].0;
        if n < 0 || n == token {
          break;
        }
        xi := xi + 1;
      }
      n := t.exca[xi].1;
    }

    /** The part before $$default: the state to shift to, or 0. */
    method TryShift(state: nat) returns (n: int)
      requires Valid() && state < |t.pact|
      modifies `token
      ensures Valid() && n == ShiftOf(t, state, TokenAt(input, pos))
      ensures token == old(token) ==> t.pact[state] <= YYFLAG || token == TokenAt(input, pos)
      ensures n != NOSHIFT ==> token == TokenAt(input, pos)
    {
      hide ActionFits, GotoFits, StackOk, IsCollection, WellFormed;
      n := t.pact[state];
      if n <= YYFLAG {
        return NOSHIFT;
      }
      Peek();
      n := n + token;
      if n < 0 || n >= t.last {
        return NOSHIFT;
      }
      n := t.act[n];
      if t.chk[n] != token {
        n := NOSHIFT;
      }
    }

    ghost function Top(): nat
      requires Valid()
      reads this
    {
      TopFits();
      states[|states| - 1]
    }

    ghost function Now(): Config
      reads this
    {
      Config(states, pos)
    }

    /** $$stack, $$newstate and $$default once round: one shift, or one reduction with its goto,
        or the end. The token is read only when it is needed. */
    method Step() returns (outcome: Outcome)
      requires Valid()
      modifies this
      ensures Valid() && old(states) != [] && old(states)[|old(states)| - 1] >= 0
      ensures var action := Decode(t, old(states)[|old(states)| - 1], TokenAt(input, old(pos)));
        && (outcome == Accepted <==> action == ACCEPTCODE) && (outcome == Rejected <==> action == ERRCODE)
        && (outcome != Running ==> states == old(states) && pos == old(pos))
        && (outcome == Running && action > 0 ==> states == old(states) + [action] && pos == old(pos) + 1)
        && (action <= 0 ==> pos == old(pos) && PopsTo(g, m, old(states), states, 0 - action))
      ensures outcome == OutcomeOf(ActionAt(t, input, old(Now()))) && Now() == After(t, input, old(Now()))
      ensures outcome == Accepted ==> pos == |input| && Derives(g, [Start(g)], input)
    {
      hide Drives, StackOk, IsCollection, WellFormed, Decode, ShiftOf, Exception, TableInside;
      TopFits();
      var state := states[|states| - 1];
      var n := TryShift(state);
      DecodeIs(t, state, TokenAt(input, pos));
      if n != NOSHIFT {
        ShiftFits(g, m, t, state, TokenAt(input, pos));
        PushToken(n);
        return Running;
      }
      n := t.def[state];
      if n == -2 {
        Peek();
        n := SearchExca(state);
        if n < 0 {
          AcceptFits(state);
          return Accepted;
        }
      }
      if n == 0 {
        return Rejected;
      }
      Reduce(n);
      outcome := Running;
    }

    /** The top of the stack is a state, and the tables cover it. */
    lemma TopFits()
      requires Valid()
      ensures |states| == |syms| + 1 && 0 <= states[|syms|] < |t.pact| == |t.def| == |m.kernels| < NSTATES
      ensures 1 <= TokenAt(input, pos) <= g.ntokens && TableInside(t, |m.kernels|) && IsCollection(g, m)
      ensures ActionFits(g, m, t, states[|syms|], TokenAt(input, pos))
      ensures t.def[states[|syms|]] >= 0 || t.def[states[|syms|]] == -2
      ensures t.def[states[|syms|]] == -2 ==> ExcaHas(t.exca, states[|syms|], TokenAt(input, pos))
    {
      StackTop(g, m, states, syms, trees, input[..pos]);
    }

    /** Shifting the token at hand. */
    method PushToken(n: int)
      requires Valid() && pos < |input| && |states| == |syms| + 1 && Trans(g, m, states[|syms|], TokenAt(input, pos), n)
      modifies this
      ensures Valid() && pos == old(pos) + 1 && states == old(states) + [n]
    {
      hide Drives, StackOk;
      StackPush(g, m, states, syms, trees, input[..pos], input[pos], n);
      assert input[..pos + 1] == input[..pos] + [input[pos] as int];
      states := states + [n];
      syms := syms + [input[pos] as int];
      trees := trees + [Leaf(input[pos])];
      token := -1;
      pos := pos + 1;
    }

    lemma AcceptFits(state: int)
      requires Valid() && |states| == |syms| + 1 && states[|syms|] == state && state >= 0
      requires ActionFits(g, m, t, state, TokenAt(input, pos)) && Decode(t, state, TokenAt(input, pos)) == ACCEPTCODE
      ensures pos == |input| && Derives(g, [Start(g)], input)
    {
      StackAccept(g, m, states, syms, trees, input[..pos]);
      assert input[..pos] == input;
    }

    /** A reduction: the right-hand side is popped, and the goto table consulted. */
    method Reduce(n: int)
      requires Valid() && |states| == |syms| + 1 && n > 0 && Reducible(g, m, states[|syms|], n)
      modifies this
      ensures Valid() && pos == old(pos) && states == AfterReduction(t, old(states), n)
      ensures PopsTo(g, m, old(states), states, n)
    {
      hide StackOk, IsCollection, WellFormed, Trans, Expects, ActionFits, Reducible;
      StackReduce(g, m, states, syms, trees, input[..pos], n);
      RuleTables(n);
      var p := |states| - 1 - t.r2[n];
      var c := t.r1[n];
      assert GotoFits(g, m, t, states[p], c) by {
        StackTop(g, m, states, syms, trees, input[..pos]);
      }
      StackTop(g, m, states, syms, trees, input[..pos]);
      GotoTables(c);
      var base := t.pgo[c];
      var j := base + states[p] + 1;
      var state;
      if j >= t.last {
        state := t.act[base];
      } else {
        state := t.act[j];
        if t.chk[state] != 0 - c {
          state := t.act[base];
        }
      }
      assert state == GotoOf(t, states[p], c);
      states := states[..p + 1] + [state];
      syms := syms[..p] + [Lhs(g, n)];
      trees := trees[..p] + [Node(n, trees[p..])];
    }

    lemma RuleTables(n: int)
      requires Valid() && n > 0 && |states| == |syms| + 1 && Reducible(g, m, states[|syms|], n)
      ensures HasRule(g, n) && n < |t.r1| == |t.r2| && t.r1[n] == Lhs(g, n) - NTBASE && t.r2[n] == |Rhs(g, n)|
    {
    }

    lemma GotoTables(c: int)
      requires Valid() && 1 <= c <= g.nnonter
      ensures c < |t.pgo| && 0 <= t.pgo[c] < t.last == |t.act| && forall q :: 0 <= q < |t.act| ==>
        0 <= t.act[q] < |t.chk|
    {
    }

    /** Parsing, for at most a given number of steps. Whenever it accepts, the start symbol
        derives the input; and at all times the stack's symbols derive what has been read. */
    method Parse(fuel: nat) returns (outcome: Outcome, ghost taken: nat)
      requires Valid()
      modifies this
      ensures Valid() && (outcome == Accepted ==> pos == |input| && Derives(g, [Start(g)], input))
      ensures Derives(g, syms, input[..pos])
      ensures outcome == RunFor(t, input, old(Now()), fuel)
      ensures StepsTo(t, input, old(Now()), Now(), taken) && (outcome == Running ==> taken == fuel)
      ensures outcome != Running ==> Decode(t, Top(), TokenAt(input, pos)) == EndCode(outcome)
    {
      hide Drives, StackOk, After, Decode;
      outcome := Running;
      taken := 0;
      ghost var start := Now();
      for i := 0 to fuel
        invariant Valid() && outcome == Running && taken == i && StepsTo(t, input, start, Now(), i)
        invariant RunFor(t, input, start, fuel) == RunFor(t, input, Now(), fuel - i)
      {
        ghost var before := Now();
        outcome := Step();
        if outcome != Running {
          StackDerives(g, m, states, syms, trees, input[..pos]);
          return;
        }
        OneStep(t, input, before);
        StepsOn(t, input, start, before, Now(), i, 1);
        taken := i + 1;
      }
      StackDerives(g, m, states, syms, trees, input[..pos]);
    }
  }

  lemma DecodeIs(t: Table, i: nat, token: nat)
    requires i < |t.def|
    ensures Decode(t, i, token) ==
      if ShiftOf(t, i, token) != NOSHIFT then ShiftOf(t, i, token)
      else ActionOfCode(if t.def[i] == -2 then Exception(t.exca, i, token) else t.def[i])
  {
  }

  /** A shift that is found is one of the automaton, on a token of the input. */
  lemma ShiftFits(g: Grammar, m: Automaton, t: Table, i: nat, token: nat)
    requires ActionFits(g, m, t, i, token) && ShiftOf(t, i, token) != NOSHIFT && TableInside(t, |m.kernels|)
    requires |m.kernels| < NSTATES
    requires IsCollection(g, m)
    ensures IsShift(ShiftOf(t, i, token)) && Trans(g, m, i, token, ShiftOf(t, i, token)) && token != ENDTOK
  {
    EndNotShifted(g, m, i, ShiftOf(t, i, token));
  }
}
