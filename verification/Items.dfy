/** LR(0) items, left corners, closures and gotos, free of any representation: the
    reference that the tables of cmd/goyacc/yacc.go are measured against. */
module Items {
  import opened Grammars

  /** Rule number and the number of right-hand side symbols before the dot. */
  datatype Lr0 = Lr0(rule: nat, dot: nat)

  ghost predicate ValidItem(g: Grammar, it: Lr0) {
    HasRule(g, it.rule) && it.dot <= |Rhs(g, it.rule)|
  }

  /** The symbol after the dot, or the terminator -rule. */
  function Next(g: Grammar, it: Lr0): int
    requires HasRule(g, it.rule) && it.dot <= |Rhs(g, it.rule)|
  {
    if it.dot < |Rhs(g, it.rule)| then Rhs(g, it.rule)[it.dot] else 0 - it.rule
  }

  /** b is reached from a in n steps, each to the first symbol of a right-hand side. */
  ghost predicate Corner(g: Grammar, a: int, b: int, n: nat)
    decreases n
  {
    if n == 0 then a == b
    else exists r: nat :: CornerStep(g, a, r) && Corner(g, Rhs(g, r)[0], b, n - 1)
  }

  ghost predicate CornerStep(g: Grammar, a: int, r: nat) {
    HasRule(g, r) && Lhs(g, r) == a && |Rhs(g, r)| > 0 && Rhs(g, r)[0] >= NTBASE
  }

  /** Some string derived from a, rewriting leftmost symbols only, starts with b. */
  ghost predicate LeftCorner(g: Grammar, a: int, b: int) {
    exists n: nat :: Corner(g, a, b, n)
  }

  /** it is in the LR(0) closure of the kernel. */
  ghost predicate InClosure(g: Grammar, kernel: set<Lr0>, it: Lr0) {
    it in kernel || (it.dot == 0 && HasRule(g, it.rule) && Introduced(g, kernel, Lhs(g, it.rule)))
  }

  /** Some kernel item has its dot before a symbol with left corner c. */
  ghost predicate Introduced(g: Grammar, kernel: set<Lr0>, c: int) {
    exists k :: k in kernel && ValidItem(g, k) && Next(g, k) >= NTBASE && LeftCorner(g, Next(g, k), c)
  }

  lemma {:induction false} CornerExtend(g: Grammar, a: int, b: int, n: nat, r: nat)
    requires Corner(g, a, b, n) && CornerStep(g, b, r)
    ensures Corner(g, a, Rhs(g, r)[0], n + 1)
    decreases n
  {
    if n == 0 {
      assert Corner(g, Rhs(g, r)[0], Rhs(g, r)[0], 0);
    } else {
      var q: nat :| CornerStep(g, a, q) && Corner(g, Rhs(g, q)[0], b, n - 1);
      CornerExtend(g, Rhs(g, q)[0], b, n - 1, r);
    }
  }

  /** A closure is closed: the productions of a nonterminal after a dot are in. */
  lemma ClosureStep(g: Grammar, kernel: set<Lr0>, it: Lr0, r: nat)
    requires InClosure(g, kernel, it) && ValidItem(g, it) && HasRule(g, r)
    requires Next(g, it) >= NTBASE && Lhs(g, r) == Next(g, it)
    ensures InClosure(g, kernel, Lr0(r, 0))
  {
    if it in kernel {
      assert Corner(g, Next(g, it), Next(g, it), 0);
    } else {
      var k :| k in kernel && ValidItem(g, k) && Next(g, k) >= NTBASE && LeftCorner(g, Next(g, k), Lhs(g, it.rule));
      var n: nat :| Corner(g, Next(g, k), Lhs(g, it.rule), n);
      CornerExtend(g, Next(g, k), Lhs(g, it.rule), n, it.rule);
      assert LeftCorner(g, Next(g, k), Lhs(g, r));
    }
  }

  /** have is a set of items with the kernel in it and closed under introduction. */
  ghost predicate ClosedItems(g: Grammar, kernel: set<Lr0>, have: set<Lr0>) {
    && kernel <= have
    && (forall it :: it in have ==> ValidItem(g, it))
    && forall it, r: nat :: it in have && HasRule(g, r) && Next(g, it) >= NTBASE && Lhs(g, r) == Next(g, it) ==>
         Lr0(r, 0) in have
  }

  lemma {:induction false} ClosedHasCorners(g: Grammar, kernel: set<Lr0>, have: set<Lr0>, it: Lr0, c: int, n: nat,
                                            r: nat)
    requires ClosedItems(g, kernel, have) && it in have && Next(g, it) >= NTBASE
    requires Corner(g, Next(g, it), c, n) && HasRule(g, r) && Lhs(g, r) == c
    ensures Lr0(r, 0) in have
    decreases n
  {
    if n > 0 {
      var q: nat :| CornerStep(g, Next(g, it), q) && Corner(g, Rhs(g, q)[0], c, n - 1);
      assert Lr0(q, 0) in have && Next(g, Lr0(q, 0)) == Rhs(g, q)[0];
      ClosedHasCorners(g, kernel, have, Lr0(q, 0), c, n - 1, r);
    }
  }

  /** Every closed set of items contains the closure. */
  lemma ClosedHasClosure(g: Grammar, kernel: set<Lr0>, have: set<Lr0>, it: Lr0)
    requires ClosedItems(g, kernel, have) && InClosure(g, kernel, it)
    ensures it in have
  {
    if it !in kernel {
      var k :| k in kernel && ValidItem(g, k) && Next(g, k) >= NTBASE && LeftCorner(g, Next(g, k), Lhs(g, it.rule));
      var n: nat :| Corner(g, Next(g, k), Lhs(g, it.rule), n);
      ClosedHasCorners(g, kernel, have, k, Lhs(g, it.rule), n, it.rule);
    }
  }

  // ------------------------------------------------------------------ gotos

  /** it is what the closure of the kernel holds after moving the dot over x. */
  ghost predicate InGoto(g: Grammar, kernel: set<Lr0>, x: int, it: Lr0) {
    && it.dot > 0 && ValidItem(g, it)
    && InClosure(g, kernel, Lr0(it.rule, it.dot - 1))
    && Next(g, Lr0(it.rule, it.dot - 1)) == x
  }

  ghost predicate IsGoto(g: Grammar, kernel: set<Lr0>, x: int, target: set<Lr0>) {
    && target != {}
    && forall it :: it in target <==> InGoto(g, kernel, x, it)
  }

  /** The kernels of the states and the symbol each is entered by. */
  datatype Automaton = Automaton(kernels: seq<set<Lr0>>, access: seq<int>)

  ghost predicate Trans(g: Grammar, m: Automaton, i: int, x: int, j: int) {
    && 0 <= i < |m.kernels| && 0 < j < |m.kernels| == |m.access|
    && m.access[j] == x && IsGoto(g, m.kernels[i], x, m.kernels[j])
  }

  /** The dot stands before x somewhere in the closure of state i. */
  ghost predicate Expects(g: Grammar, m: Automaton, i: int, x: int) {
    && 0 <= i < |m.kernels|
    && exists it :: InClosure(g, m.kernels[i], it) && ValidItem(g, it) && Next(g, it) == x
  }

  lemma TransExpects(g: Grammar, m: Automaton, i: int, x: int, j: int)
    requires Trans(g, m, i, x, j)
    ensures Expects(g, m, i, x)
  {
    var it :| it in m.kernels[j];
    assert InGoto(g, m.kernels[i], x, it);
  }

  const StartItem := Lr0(0, 0)

  ghost predicate KernelOk(g: Grammar, kernel: set<Lr0>) {
    && kernel != {}
    && forall it :: it in kernel ==> ValidItem(g, it) && (it.dot > 0 || it == StartItem)
  }

  ghost predicate KernelsOk(g: Grammar, m: Automaton) {
    && 0 < |m.kernels| == |m.access|
    && m.kernels[0] == {StartItem}
    && forall i :: 0 <= i < |m.kernels| ==> KernelOk(g, m.kernels[i])
  }

  ghost predicate DistinctKernels(m: Automaton) {
    forall i, j :: 0 <= i < j < |m.kernels| ==> m.kernels[i] != m.kernels[j]
  }

  ghost predicate ClosedUnderGoto(g: Grammar, m: Automaton) {
    forall i, x :: x > ENDTOK && Expects(g, m, i, x) ==> exists j :: Trans(g, m, i, x, j)
  }

  ghost predicate HasPredecessor(g: Grammar, m: Automaton, j: int) {
    0 <= j < |m.access| && m.access[j] > ENDTOK && exists i :: 0 <= i < j && Trans(g, m, i, m.access[j], j)
  }

  /** The LR(0) collection: a deterministic automaton closed under goto, in which every
      state has its own kernel, one accessing symbol, and a predecessor before it. */
  ghost predicate IsCollection(g: Grammar, m: Automaton) {
    && KernelsOk(g, m)
    && DistinctKernels(m)
    && ClosedUnderGoto(g, m)
    && forall j :: 0 < j < |m.kernels| ==> HasPredecessor(g, m, j)
  }

  /** The automaton is deterministic. */
  lemma TransUnique(g: Grammar, m: Automaton, i: int, x: int, j: int, j': int)
    requires DistinctKernels(m) && Trans(g, m, i, x, j) && Trans(g, m, i, x, j')
    ensures j == j'
  {
    assert forall it :: it in m.kernels[j] <==> it in m.kernels[j'];
    assert m.kernels[j] == m.kernels[j'];
  }

  // ------------------------------------------------------------------ paths

  ghost predicate Path(g: Grammar, m: Automaton, states: seq<int>, syms: seq<int>) {
    && |states| == |syms| + 1 && states[0] == 0
    && forall k :: 0 <= k < |syms| ==> Trans(g, m, states[k], syms[k], states[k + 1])
  }

  lemma PathPrefix(g: Grammar, m: Automaton, states: seq<int>, syms: seq<int>, n: nat)
    requires Path(g, m, states, syms) && n <= |syms|
    ensures Path(g, m, states[..n + 1], syms[..n])
  {
  }

  lemma PathState(g: Grammar, m: Automaton, states: seq<int>, syms: seq<int>, k: nat)
    requires KernelsOk(g, m) && Path(g, m, states, syms) && k <= |syms|
    ensures 0 <= states[k] < |m.kernels| && (states[k] == 0 <==> k == 0)
    ensures k > 0 ==> StartItem !in m.kernels[states[k]]
  {
    assert k > 0 ==> Trans(g, m, states[k - 1], syms[k - 1], states[k]);
  }

  /** An item in the closure of the state at the end of a path says what the path's
      last symbols are, and that its rule was being looked for before them. */
  lemma {:induction false} ItemOnPath(g: Grammar, m: Automaton, states: seq<int>, syms: seq<int>, it: Lr0)
    requires KernelsOk(g, m) && Path(g, m, states, syms)
    requires 0 <= states[|syms|] < |m.kernels|
    requires ValidItem(g, it) && InClosure(g, m.kernels[states[|syms|]], it)
    ensures it.dot <= |syms| && syms[|syms| - it.dot..] == Rhs(g, it.rule)[..it.dot]
    ensures var s := states[|syms| - it.dot]; 0 <= s < |m.kernels| && InClosure(g, m.kernels[s], Lr0(it.rule, 0))
    decreases it.dot
  {
    hide Trans, InClosure;
    if it.dot > 0 {
      var n, before := |syms|, Lr0(it.rule, it.dot - 1);
      StepBack(g, m, states, syms, it);
      PathPrefix(g, m, states, syms, n - 1);
      ItemOnPath(g, m, states[..n], syms[..n - 1], before);
      assert syms[..n - 1][n - 1 - before.dot..] == syms[n - it.dot..n - 1];
      assert syms[n - it.dot..] == syms[n - it.dot..n - 1] + [syms[n - 1]];
      assert Rhs(g, it.rule)[..it.dot] == Rhs(g, it.rule)[..before.dot] + [syms[n - 1]];
    }
  }

  lemma StepBack(g: Grammar, m: Automaton, states: seq<int>, syms: seq<int>, it: Lr0)
    requires KernelsOk(g, m) && Path(g, m, states, syms)
    requires 0 <= states[|syms|] < |m.kernels| && it.dot > 0
    requires ValidItem(g, it) && InClosure(g, m.kernels[states[|syms|]], it)
    ensures |syms| > 0 && 0 <= states[|syms| - 1] < |m.kernels|
    ensures InGoto(g, m.kernels[states[|syms| - 1]], syms[|syms| - 1], it)
  {
    var n := |syms|;
    PathState(g, m, states, syms, n);
    if n > 0 {
      PathState(g, m, states, syms, n - 1);
      assert Trans(g, m, states[n - 1], syms[n - 1], states[n]);
    }
  }

  /** Reducing a rule exposes a state that has a goto on its left-hand side. */
  lemma ReduceExposes(g: Grammar, m: Automaton, states: seq<int>, syms: seq<int>, r: nat)
    requires WellFormed(g) && KernelsOk(g, m) && Path(g, m, states, syms) && 0 < r && HasRule(g, r)
    requires 0 <= states[|syms|] < |m.kernels| && InClosure(g, m.kernels[states[|syms|]], Lr0(r, |Rhs(g, r)|))
    ensures |Rhs(g, r)| <= |syms| && syms[|syms| - |Rhs(g, r)|..] == Rhs(g, r)
    ensures Expects(g, m, states[|syms| - |Rhs(g, r)|], Lhs(g, r)) && Lhs(g, r) > ENDTOK
  {
    var it := Lr0(r, |Rhs(g, r)|);
    ItemOnPath(g, m, states, syms, it);
    assert Rhs(g, r)[..|Rhs(g, r)|] == Rhs(g, r);
    RuleShape(g, r);
    var s := states[|syms| - it.dot];
    var kernel := m.kernels[s];
    assert KernelOk(g, kernel);
    assert Lr0(r, 0) !in kernel;
    var k :| k in kernel && ValidItem(g, k) && Next(g, k) >= NTBASE && LeftCorner(g, Next(g, k), Lhs(g, r));
    var n: nat :| Corner(g, Next(g, k), Lhs(g, r), n);
    CornerExpected(g, kernel, k, Lhs(g, r), n);
  }

  /** A left corner of a symbol after a dot is itself after a dot in the closure. */
  lemma {:induction false} CornerExpected(g: Grammar, kernel: set<Lr0>, it: Lr0, c: int, n: nat)
    requires ValidItem(g, it) && InClosure(g, kernel, it) && Next(g, it) >= NTBASE && Corner(g, Next(g, it), c, n)
    ensures exists k :: InClosure(g, kernel, k) && ValidItem(g, k) && Next(g, k) == c
    decreases n
  {
    if n > 0 {
      var q: nat :| CornerStep(g, Next(g, it), q) && Corner(g, Rhs(g, q)[0], c, n - 1);
      ClosureStep(g, kernel, it, q);
      CornerExpected(g, kernel, Lr0(q, 0), c, n - 1);
    }
  }

  /** Only the start state, at the bottom of a path, lies one symbol under the item
      that calls for $end. */
  lemma AcceptPath(g: Grammar, m: Automaton, states: seq<int>, syms: seq<int>)
    requires WellFormed(g) && KernelsOk(g, m) && Path(g, m, states, syms)
    requires 0 <= states[|syms|] < |m.kernels| && Lr0(0, 1) in m.kernels[states[|syms|]]
    ensures syms == [Start(g)]
  {
    RuleShape(g, 0);
    ItemOnPath(g, m, states, syms, Lr0(0, 1));
    var s := states[|syms| - 1];
    var kernel := m.kernels[s];
    assert InClosure(g, kernel, StartItem);
    if StartItem !in kernel {
      var k :| k in kernel && ValidItem(g, k) && Next(g, k) >= NTBASE && LeftCorner(g, Next(g, k), NTBASE);
      var n: nat :| Corner(g, Next(g, k), NTBASE, n);
      AcceptNotCorner(g, k, n);
    }
    PathState(g, m, states, syms, |syms| - 1);
  }

  lemma {:induction false} CornerLast(g: Grammar, a: int, b: int, n: nat)
    requires WellFormed(g) && n > 0 && Corner(g, a, b, n)
    ensures NTBASE < b
    decreases n
  {
    var q: nat :| CornerStep(g, a, q) && Corner(g, Rhs(g, q)[0], b, n - 1);
    if n > 1 {
      CornerLast(g, Rhs(g, q)[0], b, n - 1);
    } else {
      RuleShape(g, q);
      assert Rhs(g, q)[0] in Rhs(g, q);
    }
  }

  lemma AcceptNotCorner(g: Grammar, it: Lr0, n: nat)
    requires WellFormed(g) && ValidItem(g, it) && Next(g, it) >= NTBASE
    ensures !Corner(g, Next(g, it), NTBASE, n)
  {
    RuleShape(g, it.rule);
    assert Next(g, it) in Rhs(g, it.rule);
    if n > 0 && Corner(g, Next(g, it), NTBASE, n) {
      CornerLast(g, Next(g, it), NTBASE, n);
    }
  }
}
