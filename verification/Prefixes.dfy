/** What the generated parser has on its stack, at any time and on any input, is the beginning of a
    sentence: open derivation trees, and how the parser reads them. */
module Prefixes {
  import opened Grammars
  import opened Nullable
  import opened Items
  import opened Lookaheads
  import opened Propagation
  import opened Actions
  import opened Tables
  import opened Parsing
  import opened Completeness

  // ------------------------------------------------------------------ open trees

  /** A derivation tree with a place in it: done is what stands before the place in its innermost
      node and in the nodes around. */
  datatype Open =
    | Stop(rule: nat, done: seq<Tree>, rest: seq<Tree>)
    | Down(rule: nat, done: seq<Tree>, inner: Open, rest: seq<Tree>)

  ghost function Kids(o: Open): seq<Tree>
    decreases o, 0
  {
    match o
    case Stop(_, done, rest) => done + rest
    case Down(_, done, inner, rest) => done + ([Close(inner)] + rest)
  }

  ghost function Close(o: Open): Tree
    decreases o, 1
  {
    Node(o.rule, Kids(o))
  }

  /** The trees before the place. */
  ghost function Done(o: Open): seq<Tree> {
    match o
    case Stop(_, done, _) => done
    case Down(_, done, inner, _) => done + Done(inner)
  }

  /** What the tree yields behind the place. */
  ghost function Ahead(o: Open): seq<int> {
    match o
    case Stop(_, _, rest) => Yields(rest)
    case Down(_, _, inner, rest) => Ahead(inner) + Yields(rest)
  }

  lemma {:induction false} CloseYields(o: Open)
    ensures Yield(Close(o)) == Yields(Done(o)) + Ahead(o)
  {
    match o
    case Stop(_, done, rest) =>
      YieldsConcat(done, rest);
    case Down(_, done, inner, rest) =>
      CloseYields(inner);
      YieldsConcat(done, [Close(inner)] + rest);
      YieldsConcat(done, Done(inner));
      assert ([Close(inner)] + rest)[1..] == rest;
  }

  /** The parser reads what stands before the place of an open tree, a step for each node and leaf of it. */
  lemma {:induction false} ReadsOpen(f: Facts, m: Automaton, t: Table, input: seq<nat>, states: seq<int>,
                                     syms: seq<int>, i: int, pos: nat, o: Open) returns (states': seq<int>)
    requires Setting(f, m, t, input) && TopIs(f.g, m, states, syms, i) && Valid(f.g, Close(o))
    requires StandsAt(input, pos, Yield(Close(o)))
    requires Spreads(f, m, i, Lr0(o.rule, 0), TokenAt(input, pos + |Yield(Close(o))|))
    ensures Path(f.g, m, states', syms + Roots(f.g, Done(o)))
    ensures StepsTo(t, input, Config(states, pos), Config(states', pos + |Yields(Done(o))|), Sizes(Done(o)))
    decreases o
  {
    hide Setting, InClosure, Spreads, Trans, Path, StepsTo, WellFormed, Yields, StandsAt, Sizes, Kids, Done, Roots;
    var kids, n := Kids(o), |o.done|;
    var la := TokenAt(input, pos + |Yields(kids)|);
    OpenKids(f.g, o);
    TopState(f.g, m, states, syms, i);
    var states1, syms1 := ReadsKids(f, m, t, input, states, syms, i, pos, o.rule, kids, 0, n, la);
    if o.Stop? {
      states' := states1;
    } else {
      var mid, inner := pos + |Yields(o.done)|, Close(o.inner);
      DownKids(f.g, o);
      StandsSplit(input, pos, Yields(o.done), Yield(inner) + Yields(o.rest));
      StandsSplit(input, mid, Yield(inner), Yields(o.rest));
      KidFollows(f, m, t, states1[|states1| - 1], o.rule, kids, n, la, input, mid + |Yield(inner)|);
      states' := ReadsOpen(f, m, t, input, states1, syms1, states1[|states1| - 1], mid, o.inner);
      StepsOn(t, input, Config(states, pos), Config(states1, mid), Config(states', mid + |Yields(Done(o.inner))|),
              Sizes(o.done), Sizes(Done(o.inner)));
      assert syms1 + Roots(f.g, Done(o.inner)) == syms + (Roots(f.g, o.done) + Roots(f.g, Done(o.inner)));
    }
  }

  lemma OpenKids(g: Grammar, o: Open)
    requires Valid(g, Close(o))
    ensures Close(o) == Node(o.rule, Kids(o)) && Yield(Close(o)) == Yields(Kids(o)) && |o.done| <= |Kids(o)|
    ensures HasRule(g, o.rule) && Roots(g, Kids(o)) == Rhs(g, o.rule) && ValidAll(g, Kids(o))
    ensures Kids(o)[0..] == Kids(o) && Kids(o)[0..|o.done|] == o.done && (o.Stop? ==> Done(o) == o.done)
  {
    hide Yields, Roots;
  }

  lemma DownKids(g: Grammar, o: Open)
    requires Valid(g, Close(o)) && o.Down?
    ensures var kids, n, inner := Kids(o), |o.done|, Close(o.inner);
      && n < |kids| && kids[n] == inner && kids[n + 1..] == o.rest && Valid(g, inner)
      && Yields(kids) == Yields(o.done) + (Yield(inner) + Yields(o.rest))
    ensures Roots(g, Done(o)) == Roots(g, o.done) + Roots(g, Done(o.inner))
    ensures Sizes(Done(o)) == Sizes(o.done) + Sizes(Done(o.inner))
    ensures Yields(Done(o)) == Yields(o.done) + Yields(Done(o.inner))
  {
    hide Yields, Sizes;
    var kids, inner := Kids(o), Close(o.inner);
    assert kids == o.done + [inner] + o.rest && inner in kids;
    AllYields(o.done, inner, o.rest);
    YieldsConcat(o.done, Done(o.inner));
    SizesConcat(o.done, Done(o.inner));
  }

  lemma AllYields(a: seq<Tree>, t: Tree, b: seq<Tree>)
    ensures Yields(a + [t] + b) == Yields(a) + (Yield(t) + Yields(b))
  {
    assert a + [t] + b == a + ([t] + b) && ([t] + b)[1..] == b;
    YieldsConcat(a, [t] + b);
  }

  // ------------------------------------------------------------------ trees for symbols

  /** Tokens that the lexer may return before the end of the input. */
  ghost predicate UserTokens(g: Grammar, w: seq<int>) {
    forall x :: x in w ==> ENDTOK < x <= g.ntokens
  }

  ghost predicate UserSymbols(g: Grammar, form: seq<int>) {
    forall x :: x in form ==> IsUserSymbol(g, x)
  }

  /** $end and $accept stand in no tree of a user's symbol. */
  lemma {:induction false} UserYield(g: Grammar, t: Tree)
    requires WellFormed(g) && Valid(g, t) && IsUserSymbol(g, Root(g, t))
    ensures UserSymbols(g, Yield(t))
    decreases t, 1
  {
    match t
    case Leaf(_) =>
    case Node(r, kids) =>
      RuleShape(g, r);
      UserYields(g, kids);
  }

  lemma {:induction false} UserYields(g: Grammar, ts: seq<Tree>)
    requires WellFormed(g) && ValidAll(g, ts) && UserSymbols(g, Roots(g, ts))
    ensures UserSymbols(g, Yields(ts))
    decreases ts, 0
  {
    if ts != [] {
      assert Root(g, ts[0]) == Roots(g, ts)[0] && ts[0] in ts;
      UserYield(g, ts[0]);
      assert Roots(g, ts) == [Root(g, ts[0])] + Roots(g, ts[1..]);
      UserYields(g, ts[1..]);
    }
  }

  /** A tree over some symbol that yields tokens. */
  lemma GrowOne(g: Grammar, s: int) returns (t: Tree)
    requires WellFormed(g) && Productive(g) && IsUserSymbol(g, s)
    ensures Valid(g, t) && Root(g, t) == s && UserTokens(g, Yield(t)) && (s >= NTBASE ==> t.Node?)
  {
    if s < NTBASE {
      t := Leaf(s);
      assert Yield(t) == [s];
    } else {
      assert DerivesTokens(g, s);
      var w :| Derives(g, [s], w) && AllTokens(g, w);
      t := TreeOf(g, s, w);
      UserYield(g, t);
      assert t.Leaf? ==> Yield(t) == [s] && s in Yield(t);
    }
  }

  lemma {:induction false} Grow(g: Grammar, form: seq<int>) returns (ts: seq<Tree>)
    requires WellFormed(g) && Productive(g) && UserSymbols(g, form)
    ensures ValidAll(g, ts) && Roots(g, ts) == form && UserTokens(g, Yields(ts))
    decreases |form|
  {
    hide WellFormed, Productive;
    if form == [] {
      ts := [];
    } else {
      assert form[0] in form;
      var t := GrowOne(g, form[0]);
      var rest := Grow(g, form[1..]);
      ts := [t] + rest;
      assert ts[1..] == rest && Roots(g, ts) == [form[0]] + form[1..];
    }
  }

  /** What a right-hand side holds from some place on. */
  lemma GrowRest(g: Grammar, r: nat, k: nat) returns (ts: seq<Tree>)
    requires WellFormed(g) && Productive(g) && 0 < r && HasRule(g, r) && k <= |Rhs(g, r)|
    ensures ValidAll(g, ts) && Roots(g, ts) == Rhs(g, r)[k..] && UserTokens(g, Yields(ts))
  {
    hide Productive;
    RuleShape(g, r);
    ts := Grow(g, Rhs(g, r)[k..]);
  }

  // ------------------------------------------------------------------ trees around trees

  ghost predicate OpenOk(g: Grammar, o: Open) {
    o.rule > 0 && Valid(g, Close(o)) && UserTokens(g, Ahead(o))
  }

  lemma Wrap(g: Grammar, r: nat, done: seq<Tree>, inner: Open, rest: seq<Tree>)
    requires 0 < r && HasRule(g, r) && OpenOk(g, inner) && ValidAll(g, done) && ValidAll(g, rest)
    requires Roots(g, done) + [Root(g, Close(inner))] + Roots(g, rest) == Rhs(g, r) && UserTokens(g, Yields(rest))
    ensures OpenOk(g, Down(r, done, inner, rest))
  {
    var kids := done + ([Close(inner)] + rest);
    assert Roots(g, kids) == Roots(g, done) + [Root(g, Close(inner))] + Roots(g, rest);
    assert forall t :: t in kids ==> t in done || t == Close(inner) || t in rest;
    assert ValidAll(g, kids);
    assert Close(Down(r, done, inner, rest)) == Node(r, kids);
    assert Ahead(Down(r, done, inner, rest)) == Ahead(inner) + Yields(rest);
  }

  lemma StopThere(g: Grammar, r: nat, done: seq<Tree>, rest: seq<Tree>)
    requires 0 < r && HasRule(g, r) && ValidAll(g, done) && ValidAll(g, rest)
    requires Roots(g, done) + Roots(g, rest) == Rhs(g, r) && UserTokens(g, Yields(rest))
    ensures OpenOk(g, Stop(r, done, rest)) && Done(Stop(r, done, rest)) == done
  {
    var kids := done + rest;
    assert Roots(g, kids) == Roots(g, done) + Roots(g, rest);
    assert forall t :: t in kids ==> t in done || t in rest;
    assert ValidAll(g, kids);
    assert Close(Stop(r, done, rest)) == Node(r, kids);
    assert Ahead(Stop(r, done, rest)) == Yields(rest);
  }

  /** An open tree of a left corner of a is one of a. */
  lemma {:induction false} CornerOpen(g: Grammar, a: int, n: nat, o: Open) returns (o1: Open)
    requires WellFormed(g) && Productive(g) && OpenOk(g, o) && a > NTBASE && Corner(g, a, Root(g, Close(o)), n)
    ensures OpenOk(g, o1) && Root(g, Close(o1)) == a && Done(o1) == Done(o)
    decreases n
  {
    hide WellFormed, Productive, Valid, UserTokens, OpenOk;
    if n == 0 {
      o1 := o;
    } else {
      var r: nat :| CornerStep(g, a, r) && Corner(g, Rhs(g, r)[0], Root(g, Close(o)), n - 1);
      CornerRule(g, a, r);
      var inner := CornerOpen(g, Rhs(g, r)[0], n - 1, o);
      var rest := GrowRest(g, r, 1);
      assert Rhs(g, r) == [] + [Rhs(g, r)[0]] + Rhs(g, r)[1..];
      Wrap(g, r, [], inner, rest);
      o1 := Down(r, [], inner, rest);
    }
  }

  lemma CornerRule(g: Grammar, a: int, r: nat)
    requires WellFormed(g) && CornerStep(g, a, r) && a > NTBASE
    ensures r > 0 && Rhs(g, r)[0] > NTBASE
  {
    RuleShape(g, r);
    assert Rhs(g, r)[0] in Rhs(g, r);
  }

  /** The kernel item that brings a rule into the closure of a state on a path. */
  lemma Bringer(g: Grammar, m: Automaton, states: seq<int>, syms: seq<int>, j: nat, r: nat) returns (k: Lr0, n: nat)
    requires WellFormed(g) && IsCollection(g, m) && Path(g, m, states, syms) && j <= |syms| && r > 0 && HasRule(g, r)
    requires 0 <= states[j] < |m.kernels| && InClosure(g, m.kernels[states[j]], Lr0(r, 0))
    ensures ValidItem(g, k) && k.dot < |Rhs(g, k.rule)| && Next(g, k) > NTBASE && Corner(g, Next(g, k), Lhs(g, r), n)
    ensures k in m.kernels[states[j]] && k.dot <= j && syms[j - k.dot..j] == Rhs(g, k.rule)[..k.dot]
    ensures k == StartItem ==> j == 0
    ensures k != StartItem ==> 0 < k.rule && 0 < k.dot
    ensures var h := states[j - k.dot]; 0 <= h < |m.kernels| && InClosure(g, m.kernels[h], Lr0(k.rule, 0))
  {
    hide Trans, ClosedUnderGoto, DistinctKernels, HasPredecessor, Corner, WellFormedRule, IsToken;
    var kernel := m.kernels[states[j]];
    assert KernelOk(g, kernel);
    k :| k in kernel && ValidItem(g, k) && Next(g, k) >= NTBASE && LeftCorner(g, Next(g, k), Lhs(g, r));
    n :| Corner(g, Next(g, k), Lhs(g, r), n);
    RuleShape(g, k.rule);
    assert Next(g, k) in Rhs(g, k.rule);
    PathPrefix(g, m, states, syms, j);
    PathState(g, m, states, syms, j);
    ItemOnPath(g, m, states[..j + 1], syms[..j], k);
    assert syms[..j][j - k.dot..] == syms[j - k.dot..j];
  }

  /** An open tree for a rule that a state on a path looks for becomes one of the start symbol,
      with all trees of the path before its place. */
  lemma {:induction false} Around(g: Grammar, m: Automaton, states: seq<int>, syms: seq<int>, trees: seq<Tree>, j: nat,
                                  o: Open) returns (z: Open)
    requires WellFormed(g) && Productive(g) && IsCollection(g, m) && Path(g, m, states, syms) && j <= |syms|
    requires ValidAll(g, trees) && Roots(g, trees) == syms && OpenOk(g, o) && Done(o) == trees[j..]
    requires 0 <= states[j] < |m.kernels| && InClosure(g, m.kernels[states[j]], Lr0(o.rule, 0))
    ensures OpenOk(g, z) && Root(g, Close(z)) == Start(g) && Done(z) == trees
    decreases j
  {
    hide Productive, Trans, IsCollection, InClosure, Corner, UserTokens;
    var k, n := Bringer(g, m, states, syms, j, o.rule);
    var o1 := CornerOpen(g, Next(g, k), n, o);
    if k == StartItem {
      RuleShape(g, 0);
      z := o1;
    } else {
      var i := j - k.dot;
      var rest := GrowRest(g, k.rule, k.dot + 1);
      assert Roots(g, trees[i..j]) == syms[i..j];
      assert Rhs(g, k.rule) == Rhs(g, k.rule)[..k.dot] + [Next(g, k)] + Rhs(g, k.rule)[k.dot + 1..];
      Wrap(g, k.rule, trees[i..j], o1, rest);
      assert trees[i..j] + trees[j..] == trees[i..];
      z := Around(g, m, states, syms, trees, i, Down(k.rule, trees[i..j], o1, rest));
    }
  }

  /** Every path of the automaton, and trees for its symbols, begin a tree of the start symbol;
      unless the path has the start symbol behind it already. */
  lemma Completed(g: Grammar, m: Automaton, states: seq<int>, syms: seq<int>, trees: seq<Tree>) returns (z: Open)
    requires WellFormed(g) && Productive(g) && IsCollection(g, m) && Path(g, m, states, syms)
    requires ValidAll(g, trees) && Roots(g, trees) == syms && syms != [Start(g)]
    ensures OpenOk(g, z) && Root(g, Close(z)) == Start(g) && Done(z) == trees
  {
    hide Productive, Trans, UserTokens, ClosedUnderGoto, DistinctKernels, HasPredecessor;
    var top := states[|syms|];
    PathState(g, m, states, syms, |syms|);
    assert KernelOk(g, m.kernels[top]);
    var it :| it in m.kernels[top];
    if it == StartItem {
      z := StartOpen(g);
      assert trees == [];
    } else {
      NotFinal(g, m, states, syms, it);
      ItemOnPath(g, m, states, syms, it);
      var j := |syms| - it.dot;
      var rest := GrowRest(g, it.rule, it.dot);
      assert Roots(g, trees[j..]) + Roots(g, rest) == Rhs(g, it.rule)[..it.dot] + Rhs(g, it.rule)[it.dot..];
      StopThere(g, it.rule, trees[j..], rest);
      z := Around(g, m, states, syms, trees, j, Stop(it.rule, trees[j..], rest));
    }
  }

  lemma StartOpen(g: Grammar) returns (z: Open)
    requires WellFormed(g) && Productive(g)
    ensures OpenOk(g, z) && Root(g, Close(z)) == Start(g) && Done(z) == []
  {
    hide Productive, UserTokens;
    var t := GrowOne(g, Start(g));
    RuleShape(g, t.rule);
    z := Stop(t.rule, [], t.kids);
    assert Kids(z) == t.kids && Yield(t) == Yields(t.kids);
  }

  lemma NotFinal(g: Grammar, m: Automaton, states: seq<int>, syms: seq<int>, it: Lr0)
    requires WellFormed(g) && IsCollection(g, m) && Path(g, m, states, syms) && 0 <= states[|syms|] < |m.kernels|
    requires it in m.kernels[states[|syms|]] && it != StartItem && syms != [Start(g)]
    ensures it.rule > 0 && ValidItem(g, it)
  {
    hide ClosedUnderGoto, DistinctKernels, HasPredecessor;
    assert KernelOk(g, m.kernels[states[|syms|]]);
    RuleShape(g, 0);
    if it.rule == 0 {
      if it.dot == 1 {
        AcceptPath(g, m, states, syms);
      } else {
        StepBack(g, m, states, syms, it);
        EndNotShifted(g, m, states[|syms| - 1], states[|syms|]);
      }
    }
  }
}
