/** Grammars as cmd/goyacc/yacc.go stores them (prdptr), and what their rules derive. */
module Grammars {
  const NTBASE := 0x1000
  const ENDTOK := 1
  const ERRTOK := 2

  /** prods[r] is the left-hand side, the right-hand side, and the terminator -r.
      Tokens are 1..ntokens, nonterminals NTBASE..NTBASE + nnonter. */
  datatype Grammar = Grammar(prods: seq<seq<int>>, ntokens: nat, nnonter: nat)

  predicate HasRule(g: Grammar, r: int)
  {
    0 <= r < |g.prods| && |g.prods[r]| >= 2
  }

  function Lhs(g: Grammar, r: nat): int
    requires HasRule(g, r)
  {
    g.prods[r][0]
  }

  function Rhs(g: Grammar, r: nat): seq<int>
    requires HasRule(g, r)
  {
    g.prods[r][1..|g.prods[r]| - 1]
  }

  /** The right-hand side with its terminator, as pres keeps it. */
  function Tail(g: Grammar, r: nat): seq<int>
    requires HasRule(g, r)
  {
    g.prods[r][1..]
  }

  predicate IsToken(g: Grammar, s: int) {
    1 <= s <= g.ntokens
  }

  predicate IsNonter(g: Grammar, s: int) {
    NTBASE <= s <= NTBASE + g.nnonter
  }

  /** Symbols a user's rule may mention: $end and $accept are the generator's own. */
  predicate IsUserSymbol(g: Grammar, s: int) {
    ENDTOK < s <= g.ntokens || NTBASE < s <= NTBASE + g.nnonter
  }

  predicate WellFormedRule(g: Grammar, r: nat)
    requires r < |g.prods|
  {
    var p := g.prods[r];
    && |p| >= 2
    && NTBASE < p[0] <= NTBASE + g.nnonter
    && (forall k :: 1 <= k < |p| - 1 ==> IsUserSymbol(g, p[k]))
    && p[|p| - 1] + r == 0
  }

  /** What setup leaves behind when it reports no error. */
  predicate WellFormed(g: Grammar) {
    && 3 <= g.ntokens < NTBASE
    && 1 <= g.nnonter
    && 0 < |g.prods|
    && |g.prods[0]| == 4
    && g.prods[0] == [NTBASE, g.prods[0][1], ENDTOK, 0]
    && NTBASE < g.prods[0][1] <= NTBASE + g.nnonter
    && forall r: nat :: 1 <= r < |g.prods| ==> WellFormedRule(g, r)
  }

  function Start(g: Grammar): int
    requires WellFormed(g)
  {
    g.prods[0][1]
  }

  lemma RuleShape(g: Grammar, r: nat)
    requires WellFormed(g) && r < |g.prods|
    ensures HasRule(g, r) && IsNonter(g, Lhs(g, r)) && (Lhs(g, r) == NTBASE <==> r == 0)
    ensures g.prods[r] == [Lhs(g, r)] + Rhs(g, r) + [0 - r] && Tail(g, r) == Rhs(g, r) + [0 - r]
    ensures forall s :: s in Rhs(g, r) ==> IsToken(g, s) || (NTBASE < s <= NTBASE + g.nnonter)
    ensures r > 0 ==> forall s :: s in Rhs(g, r) ==> IsUserSymbol(g, s)
  {
    assert r > 0 ==> WellFormedRule(g, r);
  }

  // ------------------------------------------------------------------ rewriting

  ghost predicate StepAt(g: Grammar, a: seq<int>, b: seq<int>, k: nat, r: nat)
  {
    && k < |a| && HasRule(g, r) && a[k] == Lhs(g, r)
    && b == a[..k] + Rhs(g, r) + a[k + 1..]
  }

  ghost predicate Step(g: Grammar, a: seq<int>, b: seq<int>)
  {
    exists k: nat, r: nat :: StepAt(g, a, b, k, r)
  }

  ghost predicate DerivesIn(g: Grammar, a: seq<int>, b: seq<int>, n: nat)
    decreases n
  {
    if n == 0 then a == b
    else exists c :: Step(g, a, c) && DerivesIn(g, c, b, n - 1)
  }

  /** The sentential form a can be rewritten to b, one rule application at a time. */
  ghost predicate Derives(g: Grammar, a: seq<int>, b: seq<int>)
  {
    exists n: nat :: DerivesIn(g, a, b, n)
  }

  lemma {:induction false} DerivesInTransitive(g: Grammar, a: seq<int>, b: seq<int>, c: seq<int>, m: nat, n: nat)
    requires DerivesIn(g, a, b, m) && DerivesIn(g, b, c, n)
    ensures DerivesIn(g, a, c, m + n)
    decreases m
  {
    if m > 0 {
      var d :| Step(g, a, d) && DerivesIn(g, d, b, m - 1);
      DerivesInTransitive(g, d, b, c, m - 1, n);
    }
  }

  lemma StepInContext(g: Grammar, a: seq<int>, b: seq<int>, pre: seq<int>, post: seq<int>)
    requires Step(g, a, b)
    ensures Step(g, pre + a + post, pre + b + post)
  {
    var k: nat, r: nat :| StepAt(g, a, b, k, r);
    var x := pre + a + post;
    assert x[..|pre| + k] == pre + a[..k];
    assert x[|pre| + k + 1..] == a[k + 1..] + post;
    assert StepAt(g, x, pre + b + post, |pre| + k, r);
  }

  lemma {:induction false} DerivesInContext(g: Grammar, a: seq<int>, b: seq<int>, n: nat, pre: seq<int>, post: seq<int>)
    requires DerivesIn(g, a, b, n)
    ensures DerivesIn(g, pre + a + post, pre + b + post, n)
    decreases n
  {
    if n > 0 {
      var c :| Step(g, a, c) && DerivesIn(g, c, b, n - 1);
      StepInContext(g, a, c, pre, post);
      DerivesInContext(g, c, b, n - 1, pre, post);
    }
  }

  lemma DerivesConcat(g: Grammar, a: seq<int>, b: seq<int>, c: seq<int>, d: seq<int>)
    requires Derives(g, a, b) && Derives(g, c, d)
    ensures Derives(g, a + c, b + d)
  {
    hide DerivesIn;
    var m: nat :| DerivesIn(g, a, b, m);
    var n: nat :| DerivesIn(g, c, d, n);
    DerivesInContext(g, a, b, m, [], c);
    DerivesInContext(g, c, d, n, b, []);
    assert [] + a + c == a + c && [] + b + c == b + c;
    assert b + c + [] == b + c && b + d + [] == b + d;
    DerivesInTransitive(g, a + c, b + c, b + d, m, n);
  }

  lemma DerivesNothing(g: Grammar, form: seq<int>)
    ensures Derives(g, form, form)
  {
    assert DerivesIn(g, form, form, 0);
  }

  lemma DerivesInside(g: Grammar, x: seq<int>, pre: seq<int>, a: seq<int>, post: seq<int>, b: seq<int>)
    requires Derives(g, x, pre + a + post) && Derives(g, a, b)
    ensures Derives(g, x, pre + b + post)
  {
    var m: nat :| DerivesIn(g, x, pre + a + post, m);
    var n: nat :| DerivesIn(g, a, b, n);
    DerivesInContext(g, a, b, n, pre, post);
    DerivesInTransitive(g, x, pre + a + post, pre + b + post, m, n);
  }

  lemma DerivesAfterEmpty(g: Grammar, pre: seq<int>, mid: seq<int>, post: seq<int>, v: seq<int>)
    requires Derives(g, pre, []) && Derives(g, mid, v)
    ensures Derives(g, pre + mid + post, v + post)
  {
    DerivesConcat(g, pre, [], mid, v);
    DerivesNothing(g, post);
    DerivesConcat(g, pre + mid, [] + v, post, post);
    assert [] + v == v;
  }

  lemma DerivesByRule(g: Grammar, r: nat, w: seq<int>)
    requires HasRule(g, r) && Derives(g, Rhs(g, r), w)
    ensures Derives(g, [Lhs(g, r)], w)
  {
    var n: nat :| DerivesIn(g, Rhs(g, r), w, n);
    var a := [Lhs(g, r)];
    assert a[..0] + Rhs(g, r) + a[1..] == Rhs(g, r);
    assert StepAt(g, a, Rhs(g, r), 0, r);
    assert Step(g, a, Rhs(g, r)) && DerivesIn(g, Rhs(g, r), w, n + 1 - 1);
    assert DerivesIn(g, a, w, n + 1);
  }

  // ------------------------------------------------------------------ trees

  /** Derivation trees of sentential forms: a leaf may be any symbol. */
  datatype Tree = Leaf(sym: int) | Node(rule: nat, kids: seq<Tree>)

  ghost function Root(g: Grammar, t: Tree): int
  {
    match t
    case Leaf(s) => s
    case Node(r, _) => if HasRule(g, r) then Lhs(g, r) else 0
  }

  ghost function Roots(g: Grammar, ts: seq<Tree>): (roots: seq<int>)
    ensures |roots| == |ts|
  {
    seq(|ts|, i requires 0 <= i < |ts| => Root(g, ts[i]))
  }

  ghost predicate Valid(g: Grammar, t: Tree)
    decreases t, 1
  {
    match t
    case Leaf(_) => true
    case Node(r, kids) => HasRule(g, r) && Roots(g, kids) == Rhs(g, r) && ValidAll(g, kids)
  }

  ghost predicate ValidAll(g: Grammar, ts: seq<Tree>)
    decreases ts, 0
  {
    forall t :: t in ts ==> Valid(g, t)
  }

  ghost function Yield(t: Tree): seq<int>
    decreases t, 1
  {
    match t
    case Leaf(s) => [s]
    case Node(_, kids) => Yields(kids)
  }

  ghost function Yields(ts: seq<Tree>): seq<int>
    decreases ts, 0
  {
    if ts == [] then [] else Yield(ts[0]) + Yields(ts[1..])
  }

  lemma {:induction false} YieldsConcat(s: seq<Tree>, t: seq<Tree>)
    ensures Yields(s + t) == Yields(s) + Yields(t)
  {
    if s == [] {
      assert s + t == t;
    } else {
      assert (s + t)[1..] == s[1..] + t;
      YieldsConcat(s[1..], t);
    }
  }

  lemma YieldsOne(t: Tree)
    ensures Yields([t]) == Yield(t)
  {
    assert [t][1..] == [];
    assert Yields([t]) == Yield(t) + Yields([]);
  }

  ghost function Leaves(form: seq<int>): (ts: seq<Tree>)
    ensures |ts| == |form|
  {
    seq(|form|, i requires 0 <= i < |form| => Leaf(form[i]))
  }

  lemma {:induction false} LeavesYield(g: Grammar, form: seq<int>)
    ensures ValidAll(g, Leaves(form)) && Roots(g, Leaves(form)) == form && Yields(Leaves(form)) == form
  {
    if form != [] {
      LeavesYield(g, form[1..]);
      assert Leaves(form)[1..] == Leaves(form[1..]);
    }
  }

  /** A tree is a derivation of its yield from its root... */
  lemma {:induction false} TreeDerives(g: Grammar, t: Tree)
    requires Valid(g, t)
    ensures Derives(g, [Root(g, t)], Yield(t))
    decreases t, 1
  {
    match t
    case Leaf(s) =>
      assert DerivesIn(g, [s], [s], 0);
    case Node(r, kids) =>
      ForestDerives(g, kids);
      DerivesByRule(g, r, Yields(kids));
  }

  lemma {:induction false} ForestDerives(g: Grammar, ts: seq<Tree>)
    requires ValidAll(g, ts)
    ensures Derives(g, Roots(g, ts), Yields(ts))
    decreases ts, 0
  {
    if ts == [] {
      assert DerivesIn(g, [], [], 0);
    } else {
      TreeDerives(g, ts[0]);
      ForestDerives(g, ts[1..]);
      assert Roots(g, ts) == [Root(g, ts[0])] + Roots(g, ts[1..]);
      DerivesConcat(g, [Root(g, ts[0])], Yield(ts[0]), Roots(g, ts[1..]), Yields(ts[1..]));
    }
  }

  /** Undoes one rewriting step on a forest: the trees of the right-hand side get a parent. */
  ghost function Regroup(us: seq<Tree>, k: nat, m: nat, r: nat): (ts: seq<Tree>)
    requires k <= m <= |us|
  {
    us[..k] + [Node(r, us[k..m])] + us[m..]
  }

  lemma RegroupYields(us: seq<Tree>, k: nat, m: nat, r: nat)
    requires k <= m <= |us|
    ensures Yields(Regroup(us, k, m, r)) == Yields(us)
  {
    var node := Node(r, us[k..m]);
    assert us == us[..k] + us[k..m] + us[m..];
    YieldsConcat(us[..k] + us[k..m], us[m..]);
    YieldsConcat(us[..k], us[k..m]);
    YieldsConcat(us[..k] + [node], us[m..]);
    YieldsConcat(us[..k], [node]);
    YieldsOne(node);
  }

  lemma RegroupRoots(g: Grammar, a: seq<int>, c: seq<int>, k: nat, r: nat, us: seq<Tree>)
    requires StepAt(g, a, c, k, r) && ValidAll(g, us) && Roots(g, us) == c
    ensures k + |Rhs(g, r)| <= |us|
    ensures var ts := Regroup(us, k, k + |Rhs(g, r)|, r); ValidAll(g, ts) && Roots(g, ts) == a
  {
    var m := k + |Rhs(g, r)|;
    var ts := Regroup(us, k, m, r);
    assert Roots(g, us[k..m]) == c[k..m] == Rhs(g, r);
    assert Valid(g, Node(r, us[k..m]));
    assert c[m..] == a[k + 1..];
    forall i | 0 <= i < |a|
      ensures Root(g, ts[i]) == a[i]
    {
      if i > k {
        assert ts[i] == us[m + (i - k - 1)];
        assert c[m + (i - k - 1)] == c[m..][i - k - 1] == a[k + 1..][i - k - 1] == a[i];
      } else if i < k {
        assert ts[i] == us[i] && c[i] == a[i];
      }
    }
    assert Roots(g, ts) == a;
  }

  /** ... and every derivation has its forest. */
  lemma {:induction false} DerivationForest(g: Grammar, a: seq<int>, b: seq<int>, n: nat) returns (ts: seq<Tree>)
    requires DerivesIn(g, a, b, n)
    ensures ValidAll(g, ts) && Roots(g, ts) == a && Yields(ts) == b
    decreases n
  {
    if n == 0 {
      LeavesYield(g, a);
      ts := Leaves(a);
    } else {
      var c :| Step(g, a, c) && DerivesIn(g, c, b, n - 1);
      var k: nat, r: nat :| StepAt(g, a, c, k, r);
      var us := DerivationForest(g, c, b, n - 1);
      RegroupRoots(g, a, c, k, r, us);
      RegroupYields(us, k, k + |Rhs(g, r)|, r);
      ts := Regroup(us, k, k + |Rhs(g, r)|, r);
    }
  }

  lemma TreeOf(g: Grammar, s: int, w: seq<int>) returns (t: Tree)
    requires Derives(g, [s], w)
    ensures Valid(g, t) && Root(g, t) == s && Yield(t) == w
  {
    var n: nat :| DerivesIn(g, [s], w, n);
    var ts := DerivationForest(g, [s], w, n);
    t := ts[0];
    assert Roots(g, ts)[0] == s;
    assert ts == [t];
    YieldsOne(t);
  }
}
