/** The generated parser always comes to an end, when the grammar has no conflicts and no lookahead
    is lost: it accepts the sentences and rejects everything else. */
module Deciding {
  import opened Grammars
  import opened Nullable
  import opened Items
  import opened Lookaheads
  import opened Propagation
  import opened Actions
  import opened Tables
  import opened Parsing
  import opened Completeness
  import opened Prefixes

  // ------------------------------------------------------------------ every stack begins a sentence

  /** The generator's result for a grammar without conflicts, all of whose symbols derive something. */
  ghost predicate Ready(f: Facts, m: Automaton, t: Table) {
    FactsOk(f) && Drives(f.g, m, t) && Obeys(f, m, t) && Productive(f.g)
  }

  lemma ReadySetting(f: Facts, m: Automaton, t: Table, input: seq<nat>)
    requires Ready(f, m, t) && InputOk(f.g, input)
    ensures Setting(f, m, t, input) && WellFormed(f.g) && IsCollection(f.g, m) && Productive(f.g)
  {
    hide FactsOk, Obeys, WellFormed, IsCollection, Productive, TableInside, ExcaOk, Trans, RulesRight;
  }

  /** Some sentence begins with u. */
  ghost predicate SentenceBegins(g: Grammar, u: seq<nat>)
    requires WellFormed(g)
  {
    exists z: seq<nat> :: InputOk(g, u + z) && Derives(g, [Start(g)], u + z)
  }

  /** Whatever the conflicts of the grammar: what has been read to get a stack, on whatever input, is
      the beginning of a sentence. */
  lemma StackBegins(g: Grammar, m: Automaton, states: seq<int>, syms: seq<int>, trees: seq<Tree>, u: seq<nat>)
    requires WellFormed(g) && IsCollection(g, m) && Productive(g) && InputOk(g, u)
    requires StackOk(g, m, states, syms, trees, u)
    ensures SentenceBegins(g, u)
  {
    hide Trans, IsCollection, Productive, OpenOk;
    var z: seq<nat> := [];
    if syms == [Start(g)] {
      ForestDerives(g, trees);
    } else {
      var o := Completed(g, m, states, syms, trees);
      OpenParts(g, o);
      CloseYields(o);
      TreeDerives(g, Close(o));
      z := Ahead(o);
    }
    assert InputOk(g, u + z) && (z == [] ==> u + z == u);
  }

  /** The automaton leads over a string of symbols in one way. */
  lemma {:induction false} PathUnique(g: Grammar, m: Automaton, a: seq<int>, b: seq<int>, syms: seq<int>)
    requires DistinctKernels(m) && Path(g, m, a, syms) && Path(g, m, b, syms)
    ensures a == b
    decreases |syms|
  {
    hide DistinctKernels, Trans;
    if syms == [] {
      assert a == [a[0]] && b == [b[0]];
    } else {
      var n := |syms| - 1;
      PathPrefix(g, m, a, syms, n);
      PathPrefix(g, m, b, syms, n);
      PathUnique(g, m, a[..n + 1], b[..n + 1], syms[..n]);
      assert a[..n + 1][n] == a[n] && b[..n + 1][n] == b[n];
      TransUnique(g, m, a[n], syms[n], a[n + 1], b[n + 1]);
      assert a == a[..n + 1] + [a[n + 1]] && b == b[..n + 1] + [b[n + 1]];
    }
  }

  /** What has been read to get a stack, on whatever input, is the beginning of a sentence; and on
      that sentence the parser comes to the same stack, in as many steps as the trees ask for. */
  lemma Reach(f: Facts, m: Automaton, t: Table, states: seq<int>, syms: seq<int>, trees: seq<Tree>, u: seq<nat>)
    returns (z: seq<nat>)
    requires Ready(f, m, t) && StackOk(f.g, m, states, syms, trees, u) && InputOk(f.g, u)
    ensures InputOk(f.g, u + z) && Derives(f.g, [Start(f.g)], u + z)
    ensures StepsTo(t, u + z, Config([0], 0), Config(states, |u|), Sizes(trees))
  {
    hide Ready, Setting, Trans, IsCollection, WellFormed, Productive, Spreads, InClosure, StepsTo, OpenOk;
    ReadySetting(f, m, t, u);
    if syms == [Start(f.g)] {
      z := [];
      assert u + z == u;
      ReachStart(f, m, t, states, syms, trees, u);
    } else {
      var o := Completed(f.g, m, states, syms, trees);
      var tree := Close(o);
      OpenParts(f.g, o);
      CloseYields(o);
      z := Ahead(o);
      var input: seq<nat> := u + z;
      assert InputOk(f.g, input);
      ReadySetting(f, m, t, input);
      TreeDerives(f.g, tree);
      StartPlace(f, m, t, input, tree);
      assert StandsAt(input, 0, Yield(tree));
      var states' := ReadsOpen(f, m, t, input, [0], [], 0, 0, o);
      assert [] + Roots(f.g, trees) == syms;
      Different(f.g, m);
      PathUnique(f.g, m, states, states', syms);
    }
  }

  lemma OpenParts(g: Grammar, o: Open)
    requires OpenOk(g, o)
    ensures Valid(g, Close(o)) && forall k :: 0 <= k < |Ahead(o)| ==> ENDTOK < Ahead(o)[k] <= g.ntokens
  {
    hide Valid, Close, Ahead;
    assert forall k :: 0 <= k < |Ahead(o)| ==> Ahead(o)[k] in Ahead(o);
  }

  lemma Different(g: Grammar, m: Automaton)
    requires IsCollection(g, m)
    ensures DistinctKernels(m)
  {
  }

  /** The stack that holds the start symbol alone. */
  lemma ReachStart(f: Facts, m: Automaton, t: Table, states: seq<int>, syms: seq<int>, trees: seq<Tree>, u: seq<nat>)
    requires Setting(f, m, t, u) && WellFormed(f.g) && StackOk(f.g, m, states, syms, trees, u) && syms == [Start(f.g)]
    ensures Derives(f.g, [Start(f.g)], u) && StepsTo(t, u, Config([0], 0), Config(states, |u|), Sizes(trees))
  {
    hide Setting, Trans, Spreads, InClosure, StepsTo;
    var tree := trees[0];
    assert trees == [tree] && Root(f.g, tree) == Roots(f.g, trees)[0] && tree in trees;
    YieldsOne(tree);
    SizesOne(tree);
    TreeDerives(f.g, tree);
    StartPlace(f, m, t, u, tree);
    assert StandsAt(u, 0, Yield(tree));
    var j := ReadsTree(f, m, t, u, [0], [], 0, 0, StartItem, tree);
    assert Trans(f.g, m, states[0], syms[0], states[1]);
    assert states == [0] + [j];
  }

  // ------------------------------------------------------------------ what steps keep

  /** A step of the parser keeps the stack in order, and adds one node or leaf to its trees. */
  lemma StepKeeps(g: Grammar, m: Automaton, t: Table, input: seq<nat>, c: Config, syms: seq<int>, trees: seq<Tree>)
    returns (syms': seq<int>, trees': seq<Tree>)
    requires Drives(g, m, t) && InputOk(g, input) && c.pos <= |input|
    requires StackOk(g, m, c.states, syms, trees, input[..c.pos]) && OutcomeOf(ActionAt(t, input, c)) == Running
    ensures var c' := After(t, input, c);
      c'.pos <= |input| && StackOk(g, m, c'.states, syms', trees', input[..c'.pos])
    ensures Sizes(trees') == Sizes(trees) + 1
  {
    hide StackOk, IsCollection, WellFormed, Trans, Decode, TableInside, ExcaOk, RulesRight, Sizes, After;
    StackTop(g, m, c.states, syms, trees, input[..c.pos]);
    var top, token := c.states[|syms|], TokenAt(input, c.pos);
    TokenBound(g, input, c.pos);
    assert ActionFits(g, m, t, top, token);
    var action := Decode(t, top, token);
    if IsShift(action) {
      EndNotShifted(g, m, top, action);
      syms', trees' := syms + [token], trees + [Leaf(token)];
      StackPush(g, m, c.states, syms, trees, input[..c.pos], token, action);
      assert input[..c.pos + 1] == input[..c.pos] + [input[c.pos] as int];
      SizesConcat(trees, [Leaf(token)]);
      SizesOne(Leaf(token));
      AfterShift(t, input, c);
    } else {
      var r := 0 - action;
      syms', trees' := ReduceKeeps(g, m, t, c.states, syms, trees, input[..c.pos], r);
      ReductionStep(t, input, c, r);
    }
  }

  lemma TokenBound(g: Grammar, input: seq<nat>, pos: nat)
    requires InputOk(g, input) && WellFormed(g)
    ensures 1 <= TokenAt(input, pos) <= g.ntokens && (TokenAt(input, pos) != ENDTOK ==> pos < |input|)
    ensures pos < |input| ==> TokenAt(input, pos) > ENDTOK
  {
  }

  lemma AfterShift(t: Table, input: seq<nat>, c: Config)
    requires IsShift(ActionAt(t, input, c))
    ensures After(t, input, c) == Config(c.states + [ActionAt(t, input, c)], c.pos + 1)
  {
  }

  lemma ReduceKeeps(g: Grammar, m: Automaton, t: Table, states: seq<int>, syms: seq<int>, trees: seq<Tree>,
                    read: seq<int>, r: nat)
    returns (syms': seq<int>, trees': seq<Tree>)
    requires Drives(g, m, t) && StackOk(g, m, states, syms, trees, read) && |states| == |syms| + 1
    requires Reducible(g, m, states[|syms|], r)
    ensures StackOk(g, m, AfterReduction(t, states, r), syms', trees', read) && Sizes(trees') == Sizes(trees) + 1
  {
    hide StackOk, IsCollection, WellFormed, Trans, Decode, TableInside, ExcaOk, Sizes, Expects, Reducible, ActionFits,
      GotoOf;
    StackReduce(g, m, states, syms, trees, read, r);
    StackTop(g, m, states, syms, trees, read);
    ReducibleRule(g, m, states[|syms|], r);
    var n := |syms| - |Rhs(g, r)|;
    var node := Node(r, trees[n..]);
    syms', trees' := syms[..n] + [Lhs(g, r)], trees[..n] + [node];
    var c: nat := Lhs(g, r) - NTBASE;
    assert GotoFits(g, m, t, states[n], c) && NTBASE + c == Lhs(g, r);
    assert states[..|states| - |Rhs(g, r)|] == states[..n + 1];
    assert trees == trees[..n] + trees[n..];
    SizesConcat(trees[..n], trees[n..]);
    SizesConcat(trees[..n], [node]);
    SizesOne(node);
  }

  lemma {:induction false} StepsKeep(g: Grammar, m: Automaton, t: Table, input: seq<nat>, a: Config, b: Config, n: nat,
                                     syms: seq<int>, trees: seq<Tree>)
    returns (syms': seq<int>, trees': seq<Tree>)
    requires Drives(g, m, t) && InputOk(g, input) && a.pos <= |input| && StepsTo(t, input, a, b, n)
    requires StackOk(g, m, a.states, syms, trees, input[..a.pos])
    ensures b.pos <= |input| && StackOk(g, m, b.states, syms', trees', input[..b.pos])
    ensures Sizes(trees') == Sizes(trees) + n
    decreases n
  {
    hide Drives, StackOk, InputOk, ActionAt, After, Sizes;
    syms', trees' := syms, trees;
    if n > 0 {
      syms', trees' := StepKeeps(g, m, t, input, a, syms, trees);
      syms', trees' := StepsKeep(g, m, t, input, After(t, input, a), b, n - 1, syms', trees');
    }
  }

  lemma EmptyStack(g: Grammar, m: Automaton, input: seq<nat>)
    ensures StackOk(g, m, [0], [], [], input[..0]) && Sizes([]) == 0
  {
  }

  /** Whatever is accepted is a sentence. */
  lemma {:induction false} AcceptedDerives(g: Grammar, m: Automaton, t: Table, input: seq<nat>, c: Config,
                                           syms: seq<int>, trees: seq<Tree>, fuel: nat)
    requires Drives(g, m, t) && InputOk(g, input) && c.pos <= |input| && RunFor(t, input, c, fuel) == Accepted
    requires StackOk(g, m, c.states, syms, trees, input[..c.pos])
    ensures WellFormed(g) && Derives(g, [Start(g)], input)
    decreases fuel
  {
    hide StackOk, IsCollection, WellFormed, Trans, Decode, TableInside, ExcaOk, RulesRight, Sizes, After, Derives;
    if OutcomeOf(ActionAt(t, input, c)) == Running {
      var syms', trees' := StepKeeps(g, m, t, input, c, syms, trees);
      AcceptedDerives(g, m, t, input, After(t, input, c), syms', trees', fuel - 1);
    } else {
      StackTop(g, m, c.states, syms, trees, input[..c.pos]);
      TokenBound(g, input, c.pos);
      assert ActionFits(g, m, t, c.states[|syms|], TokenAt(input, c.pos));
      StackAccept(g, m, c.states, syms, trees, input[..c.pos]);
      assert input[..c.pos] == input;
    }
  }

  // ------------------------------------------------------------------ runs over a common prefix

  /** n steps, all of them taken before position p. */
  ghost predicate Early(t: Table, input: seq<nat>, c: Config, c': Config, n: nat, p: nat)
    decreases n
  {
    if n == 0 then c' == c
    else
      && c.pos < p && OutcomeOf(ActionAt(t, input, c)) == Running
      && Early(t, input, After(t, input, c), c', n - 1, p)
  }

  lemma {:induction false} EarlyOn(t: Table, input: seq<nat>, a: Config, b: Config, c: Config, n: nat, k: nat, p: nat,
                                   q: nat)
    requires Early(t, input, a, b, n, p) && Early(t, input, b, c, k, q) && p <= q
    ensures Early(t, input, a, c, n + k, q)
    decreases n
  {
    hide ActionAt, After;
    if n > 0 {
      EarlyOn(t, input, After(t, input, a), b, c, n - 1, k, p, q);
    }
  }

  /** Such steps are the same on every input that agrees up to p. */
  lemma {:induction false} EarlyAgrees(t: Table, input: seq<nat>, input': seq<nat>, a: Config, b: Config, n: nat,
                                       p: nat)
    requires Early(t, input, a, b, n, p) && p <= |input| && p <= |input'| && input[..p] == input'[..p]
    ensures StepsTo(t, input', a, b, n)
    decreases n
  {
    hide AfterReduction, Decode;
    if n > 0 {
      assert input[..p][a.pos] == input'[..p][a.pos];
      EarlyAgrees(t, input, input', After(t, input, a), b, n - 1, p);
    }
  }

  lemma {:induction false} StepsSplit(t: Table, input: seq<nat>, a: Config, b: Config, c: Config, n: nat, k: nat)
    requires StepsTo(t, input, a, b, n) && StepsTo(t, input, a, c, n + k)
    ensures StepsTo(t, input, b, c, k)
    decreases n
  {
    hide ActionAt, After;
    if n > 0 {
      StepsSplit(t, input, After(t, input, a), b, c, n - 1, k);
    }
  }

  // ------------------------------------------------------------------ waiting on a token

  /** At least k steps without a shift. */
  ghost predicate Waits(t: Table, input: seq<nat>, c: Config, k: nat)
    decreases k
  {
    k == 0 || (OutcomeOf(ActionAt(t, input, c)) == Running && After(t, input, c).pos == c.pos
               && Waits(t, input, After(t, input, c), k - 1))
  }

  /** The stack and the token decide how long. */
  lemma {:induction false} WaitsSame(t: Table, input: seq<nat>, input': seq<nat>, c: Config, c': Config, k: nat)
    requires Waits(t, input, c, k) && c.states == c'.states && TokenAt(input, c.pos) == TokenAt(input', c'.pos)
    ensures Waits(t, input', c', k)
    decreases k
  {
    hide AfterReduction, Decode;
    if k > 0 {
      WaitsSame(t, input, input', After(t, input, c), After(t, input', c'), k - 1);
    }
  }

  lemma {:induction false} WaitsLess(t: Table, input: seq<nat>, c: Config, k: nat, n: nat)
    requires Waits(t, input, c, n) && k <= n
    ensures Waits(t, input, c, k)
    decreases k
  {
    hide ActionAt, After;
    if k > 0 {
      WaitsLess(t, input, After(t, input, c), k - 1, n - 1);
    }
  }

  lemma {:induction false} WaitsSteps(t: Table, input: seq<nat>, a: Config, k: nat) returns (b: Config)
    requires Waits(t, input, a, k)
    ensures StepsTo(t, input, a, b, k) && b.pos == a.pos
    decreases k
  {
    hide ActionAt, After;
    b := a;
    if k > 0 {
      b := WaitsSteps(t, input, After(t, input, a), k - 1);
    }
  }

  lemma {:induction false} PosGrows(t: Table, input: seq<nat>, a: Config, b: Config, n: nat)
    requires StepsTo(t, input, a, b, n)
    ensures a.pos <= b.pos
    decreases n
  {
    hide AfterReduction, ActionAt;
    if n > 0 {
      PosGrows(t, input, After(t, input, a), b, n - 1);
    }
  }

  lemma {:induction false} StepsWait(t: Table, input: seq<nat>, a: Config, b: Config, n: nat)
    requires StepsTo(t, input, a, b, n) && b.pos == a.pos
    ensures Waits(t, input, a, n)
    decreases n
  {
    hide AfterReduction, ActionAt;
    if n > 0 {
      PosGrows(t, input, After(t, input, a), b, n - 1);
      StepsWait(t, input, After(t, input, a), b, n - 1);
    }
  }

  /** Waiting so long on some token is waiting for ever. */
  ghost predicate Patience(t: Table, states: seq<int>, ntokens: nat, bound: nat) {
    forall token: nat, k: nat :: token <= ntokens && Waits(t, [token], Config(states, 0), bound) ==>
      Waits(t, [token], Config(states, 0), k)
  }

  lemma {:induction false} PatienceBound(t: Table, states: seq<int>, ntokens: nat) returns (bound: nat)
    ensures Patience(t, states, ntokens, bound)
    decreases ntokens
  {
    hide Waits;
    bound := 0;
    if ntokens > 0 {
      bound := PatienceBound(t, states, ntokens - 1);
    }
    var before, c := bound, Config(states, 0);
    if k: nat :| !Waits(t, [ntokens], c, k) {
      if bound < k {
        bound := k;
      }
      NotLonger(t, [ntokens], c, k, bound);
    }
    forall token: nat, k: nat | token <= ntokens && Waits(t, [token], c, bound)
      ensures Waits(t, [token], c, k)
    {
      if token < ntokens {
        WaitsLess(t, [token], c, before, bound);
      }
    }
  }

  lemma NotLonger(t: Table, input: seq<nat>, c: Config, k: nat, n: nat)
    requires !Waits(t, input, c, k) && k <= n
    ensures !Waits(t, input, c, n)
  {
    if Waits(t, input, c, n) {
      WaitsLess(t, input, c, k, n);
    }
  }

  /** A parser that waits for ever accepts nothing. */
  lemma WaitsRuns(t: Table, input: seq<nat>, c: Config, fuel: nat)
    requires Waits(t, input, c, fuel)
    ensures RunFor(t, input, c, fuel) == Running
  {
    hide Waits, ActionAt, After;
    var b := WaitsSteps(t, input, c, fuel);
    RunOn(t, input, c, b, fuel, 0);
  }

  // ------------------------------------------------------------------ the end of every run

  /** The parser has come to c in n steps, the last of which, if any, was a shift. */
  ghost predicate Arrived(g: Grammar, m: Automaton, t: Table, input: seq<nat>, c: Config, n: nat, syms: seq<int>,
                          trees: seq<Tree>)
  {
    && c.pos <= |input| && Early(t, input, Config([0], 0), c, n, c.pos)
    && StackOk(g, m, c.states, syms, trees, input[..c.pos]) && Sizes(trees) == n
  }

  /** It does not wait there for ever: what it has read begins a sentence, on which it would wait
      for ever as well. */
  lemma {:induction false} NotForEver(f: Facts, m: Automaton, t: Table, input: seq<nat>, c: Config, n: nat,
                                      syms: seq<int>, trees: seq<Tree>, bound: nat)
    requires Ready(f, m, t) && InputOk(f.g, input) && Arrived(f.g, m, t, input, c, n, syms, trees)
    requires Patience(t, c.states, f.g.ntokens, bound)
    ensures !Waits(t, input, c, bound)
  {
    hide Ready, Setting, StackOk, Sizes, Waits, StepsTo, Early, Derives, WellFormed, IsCollection, Productive, Patience,
      RunFor;
    if Waits(t, input, c, bound) {
      var b := WaitsSteps(t, input, c, bound);
      var u := input[..c.pos];
      ReadyDrives(f, m, t);
      var syms', trees' := StepsKeep(f.g, m, t, input, c, b, bound, syms, trees);
      var z := Reach(f, m, t, b.states, syms', trees', u);
      var other := u + z;
      assert other[..c.pos] == input[..c.pos];
      EarlyAgrees(t, input, other, Config([0], 0), c, n, c.pos);
      StepsSplit(t, other, Config([0], 0), c, b, n, bound);
      StepsWait(t, other, c, b, bound);
      ReadySetting(f, m, t, other);
      var k := AcceptsSentence(f, m, t, other);
      WaitsOn(f.g, t, other, c, bound, k);
      WaitsRuns(t, other, c, k);
      RunOn(t, other, Config([0], 0), c, n, k);
    }
  }

  lemma ReadyDrives(f: Facts, m: Automaton, t: Table)
    requires Ready(f, m, t)
    ensures Drives(f.g, m, t)
  {
  }

  lemma WaitsOn(g: Grammar, t: Table, input: seq<nat>, c: Config, bound: nat, k: nat)
    requires InputOk(g, input) && WellFormed(g) && Patience(t, c.states, g.ntokens, bound)
    requires Waits(t, input, c, bound)
    ensures Waits(t, input, c, k)
  {
    hide Waits;
    var token := TokenAt(input, c.pos);
    TokenBound(g, input, c.pos);
    assert TokenAt([token], 0) == token;
    WaitsSame(t, input, [token], c, Config(c.states, 0), bound);
    WaitsSame(t, [token], input, Config(c.states, 0), c, k);
  }

  /** The step that ends the waiting. */
  lemma {:induction false} LastWait(t: Table, input: seq<nat>, c: Config, bound: nat) returns (b: Config, k: nat)
    requires !Waits(t, input, c, bound)
    ensures Early(t, input, c, b, k, c.pos + 1) && b.pos == c.pos
    ensures OutcomeOf(ActionAt(t, input, b)) == Running ==> After(t, input, b).pos == c.pos + 1
    decreases bound
  {
    hide ActionAt, AfterReduction;
    b, k := c, 0;
    if OutcomeOf(ActionAt(t, input, c)) == Running && After(t, input, c).pos == c.pos {
      b, k := LastWait(t, input, After(t, input, c), bound - 1);
      k := k + 1;
    }
  }

  lemma {:induction false} EarlySteps(t: Table, input: seq<nat>, a: Config, b: Config, n: nat, p: nat)
    requires Early(t, input, a, b, n, p)
    ensures StepsTo(t, input, a, b, n)
    decreases n
  {
    hide ActionAt, After;
    if n > 0 {
      EarlySteps(t, input, After(t, input, a), b, n - 1, p);
    }
  }

  /** Every run ends. */
  lemma {:induction false} Ends(f: Facts, m: Automaton, t: Table, input: seq<nat>, c: Config, n: nat, syms: seq<int>,
                                trees: seq<Tree>) returns (fuel: nat)
    requires Ready(f, m, t) && InputOk(f.g, input) && Arrived(f.g, m, t, input, c, n, syms, trees)
    ensures RunFor(t, input, Config([0], 0), fuel) != Running
    decreases |input| - c.pos
  {
    hide Ready, StackOk, Sizes, Waits, StepsTo, Early, Patience, ActionAt, OutcomeOf, After;
    var bound := PatienceBound(t, c.states, f.g.ntokens);
    NotForEver(f, m, t, input, c, n, syms, trees, bound);
    var b, k := LastWait(t, input, c, bound);
    var start, c' := Config([0], 0), After(t, input, b);
    EarlyOn(t, input, start, c, b, n, k, c.pos, c.pos + 1);
    EarlySteps(t, input, c, b, k, c.pos + 1);
    ReadyDrives(f, m, t);
    var syms', trees' := StepsKeep(f.g, m, t, input, c, b, k, syms, trees);
    if OutcomeOf(ActionAt(t, input, b)) == Running {
      syms', trees' := StepKeeps(f.g, m, t, input, b, syms', trees');
      EarlyOne(t, input, b, c.pos + 1);
      EarlyOn(t, input, start, b, c', n + k, 1, c.pos + 1, c.pos + 1);
      fuel := Ends(f, m, t, input, c', n + k + 1, syms', trees');
    } else {
      EarlySteps(t, input, start, b, n + k, c.pos + 1);
      RunOn(t, input, start, b, n + k, 1);
      fuel := n + k + 1;
    }
  }

  lemma EarlyOne(t: Table, input: seq<nat>, c: Config, p: nat)
    requires c.pos < p && OutcomeOf(ActionAt(t, input, c)) == Running
    ensures Early(t, input, c, After(t, input, c), 1, p)
  {
    hide ActionAt, After;
    assert Early(t, input, After(t, input, c), After(t, input, c), 0, p);
  }

  /** With n steps or more the parser says whether the input is a sentence. */
  ghost predicate DecidesFrom(g: Grammar, t: Table, input: seq<nat>, n: nat)
    requires WellFormed(g)
  {
    forall fuel: nat :: fuel >= n ==>
      RunFor(t, input, Config([0], 0), fuel) == if Derives(g, [Start(g)], input) then Accepted else Rejected
  }

  /** The parser of a grammar without conflicts, all of whose nonterminals derive something, decides
      whether its input is a sentence. */
  lemma ParserDecides(f: Facts, m: Automaton, t: Table, input: seq<nat>) returns (n: nat)
    requires Ready(f, m, t) && InputOk(f.g, input) && WellFormed(f.g)
    ensures DecidesFrom(f.g, t, input, n)
  {
    hide Ready, StackOk, Setting, RunFor, Derives, WellFormed, IsCollection, Productive;
    var start := Config([0], 0);
    ReadySetting(f, m, t, input);
    ReadyDrives(f, m, t);
    EmptyStack(f.g, m, input);
    n := Ends(f, m, t, input, start, 0, [], []);
    var sentence, k := Derives(f.g, [Start(f.g)], input), n;
    if sentence {
      k := AcceptsSentence(f, m, t, input);
      k := if k > n then k else n;
      RunStable(t, input, start, n, k);
    } else if RunFor(t, input, start, n) == Accepted {
      AcceptedDerives(f.g, m, t, input, start, [], [], n);
    }
    forall fuel: nat | fuel >= n
      ensures RunFor(t, input, start, fuel) == if sentence then Accepted else Rejected
    {
      RunStable(t, input, start, n, fuel);
    }
  }

  // ------------------------------------------------------------------ where errors are found

  /** The steps to a place are the same on every input that agrees up to it. */
  lemma {:induction false} StepsEarly(t: Table, input: seq<nat>, a: Config, b: Config, n: nat)
    requires StepsTo(t, input, a, b, n)
    ensures Early(t, input, a, b, n, b.pos + 1)
    decreases n
  {
    hide ActionAt, AfterReduction;
    if n > 0 {
      PosGrows(t, input, a, b, n);
      StepsEarly(t, input, After(t, input, a), b, n - 1);
    }
  }

  /** The token at which the parser rejects cannot follow what it has read, in any sentence. */
  lemma ErrorPlace(f: Facts, m: Automaton, t: Table, input: seq<nat>, c: Config, n: nat)
    requires Ready(f, m, t) && InputOk(f.g, input) && WellFormed(f.g) && c.pos < |input|
    requires StepsTo(t, input, Config([0], 0), c, n) && OutcomeOf(ActionAt(t, input, c)) == Rejected
    ensures !SentenceBegins(f.g, input[..c.pos + 1])
  {
    hide Ready, Setting, RunFor, Derives, WellFormed, IsCollection, Productive, StepsTo, Early;
    var u, start := input[..c.pos + 1], Config([0], 0);
    forall z: seq<nat> | InputOk(f.g, u + z)
      ensures !Derives(f.g, [Start(f.g)], u + z)
    {
      var other := u + z;
      StepsEarly(t, input, start, c, n);
      assert other[..c.pos + 1] == input[..c.pos + 1];
      EarlyAgrees(t, input, other, start, c, n, c.pos + 1);
      RejectsOn(t, input, other, c);
      RunOn(t, other, start, c, n, 1);
      ReadySetting(f, m, t, other);
      if Derives(f.g, [Start(f.g)], other) {
        NeverRejects(f, m, t, other, n + 1);
      }
    }
  }

  lemma RejectsOn(t: Table, input: seq<nat>, other: seq<nat>, c: Config)
    requires c.pos < |input| && c.pos < |other| && other[..c.pos + 1] == input[..c.pos + 1]
    requires OutcomeOf(ActionAt(t, input, c)) == Rejected
    ensures RunFor(t, other, c, 1) == Rejected
  {
    hide Decode;
    assert input[..c.pos + 1][c.pos] == other[..c.pos + 1][c.pos];
  }
}
