/** cpres and cpfir (cmd/goyacc/yacc.go): the productions of each nonterminal, and the
    tokens that can begin a sentential form derived from it. */
module Productions {
  import opened Grammars

  ghost predicate HasRules(g: Grammar, n: nat) {
    n <= |g.prods| && forall r: nat :: r < n ==> HasRule(g, r)
  }

  /** The right-hand sides, with their terminators, of the first n rules for c, in rule order. */
  ghost function Yielding(g: Grammar, c: int, n: nat): (ps: seq<seq<int>>)
    requires HasRules(g, n)
  {
    if n == 0 then []
    else Yielding(g, c, n - 1) + (if Lhs(g, n - 1) == c then [Tail(g, n - 1)] else [])
  }

  ghost predicate IsProductionOf(g: Grammar, i: nat, q: seq<int>, r: nat) {
    HasRule(g, r) && Lhs(g, r) == NTBASE + i && q == Tail(g, r)
  }

  lemma {:induction false} YieldingMembers(g: Grammar, i: nat, n: nat, q: seq<int>)
    requires HasRules(g, n)
    ensures q in Yielding(g, NTBASE + i, n) <==> exists r: nat :: r < n && IsProductionOf(g, i, q, r)
  {
    if n > 0 {
      YieldingMembers(g, i, n - 1, q);
      assert Lhs(g, n - 1) == NTBASE + i && q == Tail(g, n - 1) <==> IsProductionOf(g, i, q, n - 1);
    }
  }

  /** The rule that a production, with its terminator, belongs to. */
  function RuleNumber(q: seq<int>): int {
    if q == [] then 0 else 0 - q[|q| - 1]
  }

  ghost predicate Rising(ps: seq<seq<int>>) {
    forall s, s' :: 0 <= s < s' < |ps| ==> RuleNumber(ps[s]) < RuleNumber(ps[s'])
  }

  lemma {:induction false} YieldingRises(g: Grammar, c: int, n: nat)
    requires WellFormed(g) && HasRules(g, n)
    ensures Rising(Yielding(g, c, n)) && forall s :: 0 <= s < |Yielding(g, c, n)| ==>
      RuleNumber(Yielding(g, c, n)[s]) < n
  {
    if n > 0 {
      YieldingRises(g, c, n - 1);
      RuleShape(g, n - 1);
    }
  }

  /** pres: exactly the productions of each nonterminal, in rule order. */
  ghost predicate AllProductions(g: Grammar, pres: seq<seq<seq<int>>>) {
    && |pres| == g.nnonter + 1
    && (forall i :: 0 <= i < |pres| ==> Rising(pres[i]))
    && forall i: nat, q :: i < |pres| ==> (q in pres[i] <==> exists r: nat :: IsProductionOf(g, i, q, r))
  }

  ghost predicate Defined(g: Grammar, i: nat) {
    exists r: nat :: HasRule(g, r) && Lhs(g, r) == NTBASE + i
  }

  lemma RuleOfProduction(g: Grammar, pres: seq<seq<seq<int>>>, i: nat, s: nat) returns (r: nat)
    requires AllProductions(g, pres) && i < |pres| && s < |pres[i]|
    ensures IsProductionOf(g, i, pres[i][s], r)
  {
    assert pres[i][s] in pres[i];
    r :| IsProductionOf(g, i, pres[i][s], r);
  }

  lemma DefinedHasProductions(g: Grammar, pres: seq<seq<seq<int>>>, i: nat)
    requires AllProductions(g, pres) && i < |pres|
    ensures Defined(g, i) <==> pres[i] != []
  {
    if Defined(g, i) {
      var r: nat :| HasRule(g, r) && Lhs(g, r) == NTBASE + i;
      assert IsProductionOf(g, i, Tail(g, r), r);
      assert Tail(g, r) in pres[i];
    }
    if pres[i] != [] {
      var r := RuleOfProduction(g, pres, i, 0);
      assert HasRule(g, r) && Lhs(g, r) == NTBASE + i;
    }
  }

  /** cpres: ok says that every nonterminal has a rule; the generator exits when not. */
  method Cpres(g: Grammar) returns (ok: bool, pres: seq<seq<seq<int>>>)
    requires WellFormed(g)
    ensures AllProductions(g, pres)
    ensures ok <==> forall i: nat :: i <= g.nnonter ==> Defined(g, i)
  {
    pres := [];
    ok := true;
    forall r: nat | r < |g.prods|
      ensures HasRule(g, r)
    {
      RuleShape(g, r);
    }
    for i := 0 to g.nnonter + 1
      invariant |pres| == i
      invariant forall k: nat :: k < i ==> pres[k] == Yielding(g, NTBASE + k, |g.prods|)
      invariant ok <==> forall k: nat :: k < i ==> pres[k] != []
    {
      var curres: seq<seq<int>> := [];
      var c := i + NTBASE;
      for j := 0 to |g.prods|
        invariant curres == Yielding(g, c, j)
      {
        assert HasRule(g, j);
        if g.prods[j][0] == c {
          curres := curres + [g.prods[j][1..]];
        }
      }
      if |curres| == 0 {
        ok := false;
      }
      ghost var was := pres;
      pres := pres + [curres];
      assert forall k: nat :: k < i ==> pres[k] == was[k];
      assert pres[i] == curres;
    }
    forall i: nat, q | i < |pres|
      ensures q in pres[i] <==> exists r: nat :: IsProductionOf(g, i, q, r)
    {
      YieldingMembers(g, i, |g.prods|, q);
    }
    forall i: nat | i < |pres|
      ensures Rising(pres[i])
    {
      YieldingRises(g, NTBASE + i, |g.prods|);
    }
    forall i: nat | i < |pres|
      ensures Defined(g, i) <==> pres[i] != []
    {
      DefinedHasProductions(g, pres, i);
    }
  }
}

module Firsts {
  import opened Grammars
  import opened Lkset
  import opened Nullable
  import opened Productions

  /** t begins some sentential form derived from the symbol s. */
  ghost predicate Begins(g: Grammar, s: int, t: int) {
    exists w :: Derives(g, [s], w) && |w| > 0 && w[0] == t
  }

  ghost predicate ExactEmpty(g: Grammar, pempty: seq<int>) {
    && |pempty| == g.nnonter + 1
    && forall i :: 0 <= i < |pempty| ==> pempty[i] == if DerivesEmpty(g, NTBASE + i) then EMPTY else WHOKNOWS
  }

  ghost predicate ExactFirst(g: Grammar, first: seq<set<nat>>) {
    && |first| == g.nnonter + 1
    && forall i, t: nat :: 0 <= i < |first| ==> (t in first[i] <==> IsToken(g, t) && Begins(g, NTBASE + i, t))
  }

  predicate Vanishes(pempty: seq<int>, s: int) {
    NTBASE <= s < NTBASE + |pempty| && pempty[s - NTBASE] != 0
  }

  ghost predicate EmptyPrefix(pempty: seq<int>, form: seq<int>, p: nat) {
    p <= |form| && forall k :: 0 <= k < p ==> Vanishes(pempty, form[k])
  }

  lemma TableSize(g: Grammar, table: seq<seq<Word>>)
    requires TableOk(g, table)
    ensures |table| == g.nnonter + 1
  {
  }

  lemma PrefixStart(pempty: seq<int>, form: seq<int>)
    ensures EmptyPrefix(pempty, form, 0)
  {
  }

  lemma PrefixNext(pempty: seq<int>, form: seq<int>, p: nat)
    requires EmptyPrefix(pempty, form, p) && p < |form| && Vanishes(pempty, form[p])
    ensures EmptyPrefix(pempty, form, p + 1)
  {
  }

  // ------------------------------------------------------------------ soundness

  lemma {:induction false} PrefixVanishes(g: Grammar, pempty: seq<int>, form: seq<int>, p: nat)
    requires ExactEmpty(g, pempty) && EmptyPrefix(pempty, form, p)
    ensures Derives(g, form[..p], [])
  {
    if p == 0 {
      assert DerivesIn(g, form[..p], [], 0);
    } else {
      PrefixVanishes(g, pempty, form, p - 1);
      var s := form[p - 1];
      assert Vanishes(pempty, s) && NTBASE + (s - NTBASE) == s;
      assert DerivesEmpty(g, s);
      DerivesConcat(g, form[..p - 1], [], [s], []);
      assert form[..p - 1] + [s] == form[..p];
      var none: seq<int> := [];
      assert none + none == none;
      assert Derives(g, form[..p], none + none);
    }
  }

  lemma RefineRhs(g: Grammar, pempty: seq<int>, form: seq<int>, p: nat, t: int)
    requires ExactEmpty(g, pempty) && EmptyPrefix(pempty, form, p) && p < |form|
    requires Begins(g, form[p], t)
    ensures exists w :: Derives(g, form, w) && |w| > 0 && w[0] == t
  {
    hide ExactEmpty, EmptyPrefix, Derives;
    var v :| Derives(g, [form[p]], v) && |v| > 0 && v[0] == t;
    PrefixVanishes(g, pempty, form, p);
    DerivesAfterEmpty(g, form[..p], [form[p]], form[p + 1..], v);
    assert form[..p] + [form[p]] + form[p + 1..] == form;
    var w := v + form[p + 1..];
    assert w[0] == t && Derives(g, form, w);
  }

  lemma BeginsItself(g: Grammar, s: int)
    ensures Begins(g, s, s)
  {
    DerivesNothing(g, [s]);
    assert Derives(g, [s], [s]) && |[s]| > 0 && [s][0] == s;
  }

  lemma RuleBegins(g: Grammar, pempty: seq<int>, r: nat, p: nat, t: int)
    requires ExactEmpty(g, pempty) && HasRule(g, r) && p < |Rhs(g, r)|
    requires EmptyPrefix(pempty, Rhs(g, r), p) && Begins(g, Rhs(g, r)[p], t)
    ensures Begins(g, Lhs(g, r), t)
  {
    RefineRhs(g, pempty, Rhs(g, r), p, t);
    var w :| Derives(g, Rhs(g, r), w) && |w| > 0 && w[0] == t;
    DerivesByRule(g, r, w);
  }

  ghost function BeginSet(g: Grammar, s: int): set<nat> {
    set t: nat | 1 <= t <= g.ntokens && Begins(g, s, t)
  }

  /** The true FIRST sets. */
  ghost function TrueFirst(g: Grammar): (first: seq<set<nat>>)
    ensures |first| == g.nnonter + 1
    ensures forall i: nat :: i < |first| ==> first[i] == BeginSet(g, NTBASE + i)
  {
    seq(g.nnonter + 1, i requires 0 <= i <= g.nnonter => BeginSet(g, NTBASE + i))
  }

  // ------------------------------------------------------------------ fixpoints

  /** Whatever position p of the production prd contributes to c is there. */
  ghost predicate Covered(pempty: seq<int>, first: seq<set<nat>>, c: int, prd: seq<int>, p: nat)
  {
    EmptyPrefix(pempty, prd, p) && 0 <= c < |first| && p < |prd| && 0 < prd[p] < NTBASE + |first| ==>
      if prd[p] < NTBASE then prd[p] in first[c] else first[prd[p] - NTBASE] <= first[c]
  }

  ghost predicate CoveredUpTo(pempty: seq<int>, first: seq<set<nat>>, i: int, prd: seq<int>, n: nat) {
    forall p: nat :: p < n ==> Covered(pempty, first, i, prd, p)
  }

  ghost predicate CoveredRule(g: Grammar, pempty: seq<int>, first: seq<set<nat>>, r: nat)
    requires HasRule(g, r)
  {
    CoveredUpTo(pempty, first, Lhs(g, r) - NTBASE, Rhs(g, r), |Rhs(g, r)|)
  }

  lemma {:induction false} FirstLeaf(ts: seq<Tree>) returns (k: nat)
    requires Yields(ts) != []
    ensures k < |ts| && Yield(ts[k]) != [] && Yield(ts[k])[0] == Yields(ts)[0]
    ensures forall j :: 0 <= j < k ==> Yield(ts[j]) == []
  {
    if Yield(ts[0]) != [] {
      k := 0;
    } else {
      k := FirstLeaf(ts[1..]);
      k := k + 1;
    }
  }

  lemma {:induction false} CoveredTree(g: Grammar, pempty: seq<int>, first: seq<set<nat>>, t: Tree)
    requires WellFormed(g) && ExactEmpty(g, pempty) && |first| == g.nnonter + 1
    requires forall r: nat :: HasRule(g, r) ==> CoveredRule(g, pempty, first, r)
    requires Valid(g, t) && t.Node? && Yield(t) != [] && IsToken(g, Yield(t)[0])
    ensures IsNonter(g, Root(g, t)) && Yield(t)[0] in first[Root(g, t) - NTBASE]
    decreases t
  {
    var r, kids := t.rule, t.kids;
    RuleShape(g, r);
    var k := FirstLeaf(kids);
    var rhs := Rhs(g, r);
    forall j | 0 <= j < k
      ensures Vanishes(pempty, rhs[j])
    {
      assert rhs[j] == Roots(g, kids)[j] == Root(g, kids[j]);
      assert kids[j] in kids && kids[j].Node? && rhs[j] in rhs;
      TreeDerives(g, kids[j]);
      RuleShape(g, kids[j].rule);
      assert NTBASE + (rhs[j] - NTBASE) == rhs[j];
    }
    assert rhs[k] == Roots(g, kids)[k] == Root(g, kids[k]);
    assert kids[k] in kids && rhs[k] in rhs;
    assert CoveredRule(g, pempty, first, r);
    assert Covered(pempty, first, Lhs(g, r) - NTBASE, rhs, k);
    if kids[k].Node? {
      CoveredTree(g, pempty, first, kids[k]);
    }
  }

  /** Every rule's contribution is in: first is a solution of the FIRST equations. */
  ghost predicate Solves(g: Grammar, pempty: seq<int>, first: seq<set<nat>>) {
    && |first| == g.nnonter + 1
    && forall r: nat :: HasRule(g, r) ==> CoveredRule(g, pempty, first, r)
  }

  ghost predicate Within(first: seq<set<nat>>, first': seq<set<nat>>) {
    |first| == |first'| && forall i :: 0 <= i < |first| ==> first[i] <= first'[i]
  }

  lemma TrueFirstCovered(g: Grammar, pempty: seq<int>, r: nat, p: nat)
    requires WellFormed(g) && ExactEmpty(g, pempty) && HasRule(g, r) && p < |Rhs(g, r)|
    ensures Covered(pempty, TrueFirst(g), Lhs(g, r) - NTBASE, Rhs(g, r), p)
  {
    RuleShape(g, r);
    var i, s := Lhs(g, r) - NTBASE, Rhs(g, r)[p];
    var first := TrueFirst(g);
    assert s in Rhs(g, r) && NTBASE + i == Lhs(g, r);
    if EmptyPrefix(pempty, Rhs(g, r), p) {
      if s < NTBASE {
        BeginsItself(g, s);
        RuleBegins(g, pempty, r, p, s);
      } else {
        assert s == NTBASE + (s - NTBASE);
        forall t | t in first[s - NTBASE]
          ensures t in first[i]
        {
          assert t in BeginSet(g, s) && first[i] == BeginSet(g, NTBASE + i);
          RuleBegins(g, pempty, r, p, t);
        }
      }
    }
  }

  lemma TrueFirstSolves(g: Grammar, pempty: seq<int>)
    requires WellFormed(g) && ExactEmpty(g, pempty)
    ensures Solves(g, pempty, TrueFirst(g))
  {
    var first := TrueFirst(g);
    forall r: nat | HasRule(g, r)
      ensures CoveredRule(g, pempty, first, r)
    {
      var i, rhs := Lhs(g, r) - NTBASE, Rhs(g, r);
      forall p: nat | p < |rhs|
        ensures Covered(pempty, first, i, rhs, p)
      {
        TrueFirstCovered(g, pempty, r, p);
      }
    }
  }

  lemma SolutionHasTrueFirst(g: Grammar, pempty: seq<int>, first: seq<set<nat>>)
    requires WellFormed(g) && ExactEmpty(g, pempty) && Solves(g, pempty, first)
    ensures Within(TrueFirst(g), first)
  {
    forall i: nat, t: nat | i <= g.nnonter && t in TrueFirst(g)[i]
      ensures t in first[i]
    {
      assert t in BeginSet(g, NTBASE + i);
      var w :| Derives(g, [NTBASE + i], w) && |w| > 0 && w[0] == t;
      var tree := TreeOf(g, NTBASE + i, w);
      CoveredTree(g, pempty, first, tree);
    }
  }

  // ------------------------------------------------------------------ cpfir

  ghost predicate WordsOk(g: Grammar, words: seq<Word>) {
    |words| == (g.ntokens + 32) / 32 && Fits(words)
  }

  ghost predicate TableOk(g: Grammar, pfirst: seq<seq<Word>>) {
    |pfirst| == g.nnonter + 1 && forall i :: 0 <= i < |pfirst| ==> WordsOk(g, pfirst[i])
  }

  function Sets(pfirst: seq<seq<Word>>): (sets: seq<set<nat>>)
    ensures |sets| == |pfirst|
    ensures forall i :: 0 <= i < |pfirst| ==> sets[i] == Tokens(pfirst[i])
  {
    seq(|pfirst|, i requires 0 <= i < |pfirst| => Tokens(pfirst[i]))
  }

  /** The tokens that head the production prd are in own. */
  ghost predicate HasHeadToken(pempty: seq<int>, own: set<nat>, prd: seq<int>)
  {
    forall p: nat :: p < |prd| && EmptyPrefix(pempty, prd, p) && 0 < prd[p] < NTBASE ==> prd[p] in own
  }

  lemma StopCovers(pempty: seq<int>, first: seq<set<nat>>, i: int, rhs: seq<int>, p: nat)
    requires p < |rhs| && !Vanishes(pempty, rhs[p]) && CoveredUpTo(pempty, first, i, rhs, p + 1)
    ensures CoveredUpTo(pempty, first, i, rhs, |rhs|)
  {
    forall q: nat | p < q < |rhs|
      ensures !EmptyPrefix(pempty, rhs, q)
    {
      assert !Vanishes(pempty, rhs[p]);
    }
  }

  /** The initial fill for one production prd (rule r) of nonterminal i. */
  method FillFrom(g: Grammar, pempty: array<int>, ghost r: nat, prd: seq<int>, i: nat, pfirst: array<seq<Word>>,
                  ghost best: seq<set<nat>>)
    requires WellFormed(g) && pempty.Length == pfirst.Length == g.nnonter + 1 && IsProductionOf(g, i, prd, r)
    requires i < pfirst.Length
    requires Solves(g, pempty[..], best) && WordsOk(g, pfirst[i]) && Tokens(pfirst[i]) <= best[i]
    modifies pfirst
    ensures pfirst[..] == old(pfirst[..])[i := pfirst[i]]
    ensures WordsOk(g, pfirst[i]) && Tokens(pfirst[i]) <= best[i] && old(Tokens(pfirst[i])) <= Tokens(pfirst[i])
    ensures HasHeadToken(pempty[..], Tokens(pfirst[i]), Rhs(g, r))
  {
    RuleShape(g, r);
    var np := |prd| - 1;
    ghost var rhs := Rhs(g, r);
    for p := 0 to np
      invariant EmptyPrefix(pempty[..], rhs, p)
      invariant pfirst[..] == old(pfirst[..])
    {
      var ch := prd[p];
      assert ch == rhs[p] && ch in rhs;
      if ch < NTBASE {
        assert CoveredRule(g, pempty[..], best, r) && Covered(pempty[..], best, i, rhs, p);
        WithBitTokens(pfirst[i], ch);
        pfirst[i] := WithBit(pfirst[i], ch);
        assert !Vanishes(pempty[..], rhs[p]);
        break;
      }
      if pempty[ch - NTBASE] == 0 {
        assert !Vanishes(pempty[..], rhs[p]);
        break;
      }
    }
  }

  /** setunion(pfirst[i], pfirst[ch]) */
  method Absorb(g: Grammar, pfirst: array<seq<Word>>, i: nat, ch: nat) returns (changed: bool)
    requires TableOk(g, pfirst[..]) && i < pfirst.Length && ch < pfirst.Length
    modifies pfirst
    ensures TableOk(g, pfirst[..])
    ensures Sets(pfirst[..]) == old(Sets(pfirst[..]))[i := old(Sets(pfirst[..]))[i] + old(Sets(pfirst[..]))[ch]]
    ensures changed <==> Sets(pfirst[..]) != old(Sets(pfirst[..]))
  {
    ghost var was := Sets(pfirst[..]);
    UnionTokens(pfirst[i], pfirst[ch]);
    var y := Union(pfirst[i], pfirst[ch]);
    changed := y != pfirst[i];
    pfirst[i] := y;
    assert Sets(pfirst[..]) == was[i := was[i] + was[ch]];
    if was[ch] <= was[i] {
      assert Sets(pfirst[..]) == was;
    } else {
      assert Sets(pfirst[..])[i] != was[i];
    }
  }

  /** What one union in the closing loop does to the sets. */
  lemma UnionStep(g: Grammar, pempty: seq<int>, r: nat, i: nat, p: nat, now: seq<set<nat>>, next: seq<set<nat>>,
                  best: seq<set<nat>>)
    requires HasRule(g, r) && Lhs(g, r) == NTBASE + i && |now| == g.nnonter + 1 && i < |now|
    requires p < |Rhs(g, r)| && EmptyPrefix(pempty, Rhs(g, r), p) && NTBASE <= Rhs(g, r)[p] < NTBASE + |now|
    requires CoveredUpTo(pempty, now, i, Rhs(g, r), p)
    requires Within(now, best) && Solves(g, pempty, best)
    requires next == now[i := now[i] + now[Rhs(g, r)[p] - NTBASE]]
    ensures Within(next, best) && Within(now, next) && CoveredUpTo(pempty, next, i, Rhs(g, r), p + 1)
  {
    assert CoveredRule(g, pempty, best, r) && Covered(pempty, best, i, Rhs(g, r), p);
    forall q: nat | q < p + 1
      ensures Covered(pempty, next, i, Rhs(g, r), q)
    {
      assert q < p ==> Covered(pempty, now, i, Rhs(g, r), q);
    }
  }

  lemma NoShrink(a: seq<set<nat>>, b: seq<set<nat>>, c: seq<set<nat>>)
    requires Within(a, b) && Within(b, c)
    ensures Within(a, c)
    ensures a == c ==> a == b
  {
    if a == c {
      assert forall i :: 0 <= i < |a| ==> a[i] == b[i];
    }
  }

  /** One production's share of the transitive closure. */
  method CloseOver(g: Grammar, pempty: array<int>, ghost r: nat, prd: seq<int>, i: nat, pfirst: array<seq<Word>>,
                   ghost best: seq<set<nat>>)
    returns (changed: bool)
    requires WellFormed(g) && pempty.Length == g.nnonter + 1 && IsProductionOf(g, i, prd, r)
    requires TableOk(g, pfirst[..]) && Within(Sets(pfirst[..]), best) && Solves(g, pempty[..], best)
    requires i < pfirst.Length && HasHeadToken(pempty[..], Tokens(pfirst[i]), Rhs(g, r))
    modifies pfirst
    ensures TableOk(g, pfirst[..])
    ensures Within(old(Sets(pfirst[..])), Sets(pfirst[..])) && Within(Sets(pfirst[..]), best)
    ensures changed <==> Sets(pfirst[..]) != old(Sets(pfirst[..]))
    ensures CoveredRule(g, pempty[..], Sets(pfirst[..]), r)
  {
    hide EmptyPrefix, TableOk, Solves;
    RuleShape(g, r);
    PrefixStart(pempty[..], Rhs(g, r));
    TableSize(g, pfirst[..]);
    var np := |prd| - 1;
    changed := false;
    ghost var rhs, was, empt := Rhs(g, r), Sets(pfirst[..]), pempty[..];
    ghost var now := was;
    for p := 0 to np
      invariant EmptyPrefix(empt, rhs, p)
      invariant TableOk(g, pfirst[..]) && now == Sets(pfirst[..])
      invariant Within(was, now) && Within(now, best)
      invariant changed <==> now != was
      invariant CoveredUpTo(empt, now, i, rhs, p)
    {
      var ch := prd[p] - NTBASE;
      assert prd[p] == rhs[p] && rhs[p] in rhs;
      if ch < 0 {
        assert Covered(empt, now, i, rhs, p);
        StopCovers(empt, now, i, rhs, p);
        break;
      }
      var grew := Absorb(g, pfirst, i, ch);
      ghost var next := Sets(pfirst[..]);
      UnionStep(g, empt, r, i, p, now, next, best);
      NoShrink(was, now, next);
      changed := changed || grew;
      now := next;
      if pempty[ch] == 0 {
        StopCovers(empt, now, i, rhs, p);
        break;
      }
      PrefixNext(empt, rhs, p);
    }
  }

  ghost function Missing(first: seq<set<nat>>, best: seq<set<nat>>): set<(nat, nat)>
    requires |first| == |best|
  {
    set i: nat, t: nat | i < |first| && t in best[i] && t !in first[i] :: (i, t)
  }

  lemma FewerMissing(a: seq<set<nat>>, b: seq<set<nat>>, best: seq<set<nat>>)
    requires Within(a, b) && Within(b, best)
    ensures Missing(b, best) <= Missing(a, best)
    ensures a != b ==> Missing(b, best) < Missing(a, best)
  {
    if a != b {
      var i :| 0 <= i < |a| && a[i] != b[i];
      var t :| t in b[i] && t !in a[i];
      assert (i, t) in Missing(a, best) && (i, t) !in Missing(b, best);
    }
  }

  lemma TailGivesRhs(g: Grammar, i: nat, q: seq<int>, r: nat, r': nat)
    requires IsProductionOf(g, i, q, r) && IsProductionOf(g, i, q, r')
    ensures Rhs(g, r) == Rhs(g, r')
  {
    assert Rhs(g, r) == q[..|q| - 1] == Rhs(g, r');
  }

  /** The first n productions of nonterminal i have their head tokens in own. */
  ghost predicate HeadsAll(g: Grammar, pempty: seq<int>, own: set<nat>, i: nat, ps: seq<seq<int>>, n: nat)
  {
    forall s: nat, r: nat :: s < n && s < |ps| && IsProductionOf(g, i, ps[s], r) ==>
      HasHeadToken(pempty, own, Rhs(g, r))
  }

  ghost predicate HeadsIn(g: Grammar, pempty: seq<int>, first: seq<set<nat>>, i: nat)
  {
    i < |first| ==> forall r: nat :: HasRule(g, r) && Lhs(g, r) == NTBASE + i ==>
      HasHeadToken(pempty, first[i], Rhs(g, r))
  }

  ghost predicate AllHeadsIn(g: Grammar, pempty: seq<int>, first: seq<set<nat>>) {
    forall i: nat :: i < |first| ==> HeadsIn(g, pempty, first, i)
  }

  lemma HeadsFrom(g: Grammar, pempty: seq<int>, own: set<nat>, i: nat, ps: seq<seq<int>>, r: nat)
    requires forall q :: q in ps <==> exists r: nat :: IsProductionOf(g, i, q, r)
    requires HeadsAll(g, pempty, own, i, ps, |ps|) && HasRule(g, r) && Lhs(g, r) == NTBASE + i
    ensures HasHeadToken(pempty, own, Rhs(g, r))
  {
    assert IsProductionOf(g, i, Tail(g, r), r) && Tail(g, r) in ps;
    var s :| 0 <= s < |ps| && ps[s] == Tail(g, r);
  }

  /** The initial fill for nonterminal i. */
  method FillOne(g: Grammar, pempty: array<int>, i: nat, curres: seq<seq<int>>, pfirst: array<seq<Word>>,
                 ghost best: seq<set<nat>>)
    requires WellFormed(g) && pempty.Length == pfirst.Length == g.nnonter + 1 && i < pfirst.Length
    requires forall q :: q in curres <==> exists r: nat :: IsProductionOf(g, i, q, r)
    requires Solves(g, pempty[..], best)
    modifies pfirst
    ensures pfirst[..] == old(pfirst[..])[i := pfirst[i]]
    ensures WordsOk(g, pfirst[i]) && Tokens(pfirst[i]) <= best[i]
    ensures HeadsIn(g, pempty[..], Sets(pfirst[..]), i)
  {
    ghost var empt := pempty[..];
    pfirst[i] := seq((g.ntokens + 32) / 32, _ => 0);
    ZerosTokens((g.ntokens + 32) / 32);
    for s := 0 to |curres|
      invariant pfirst[..] == old(pfirst[..])[i := pfirst[i]]
      invariant WordsOk(g, pfirst[i]) && Tokens(pfirst[i]) <= best[i]
      invariant HeadsAll(g, empt, Tokens(pfirst[i]), i, curres, s)
    {
      assert curres[s] in curres;
      ghost var r: nat :| IsProductionOf(g, i, curres[s], r);
      FillFrom(g, pempty, r, curres[s], i, pfirst, best);
      forall r': nat | IsProductionOf(g, i, curres[s], r')
        ensures HasHeadToken(empt, Tokens(pfirst[i]), Rhs(g, r'))
      {
        TailGivesRhs(g, i, curres[s], r, r');
      }
    }
    forall r: nat | HasRule(g, r) && Lhs(g, r) == NTBASE + i
      ensures HasHeadToken(empt, Tokens(pfirst[i]), Rhs(g, r))
    {
      HeadsFrom(g, empt, Tokens(pfirst[i]), i, curres, r);
    }
  }

  /** The first half of cpfir: mkset and the initial fill. */
  method InitialFill(g: Grammar, pempty: array<int>, pres: seq<seq<seq<int>>>, ghost best: seq<set<nat>>)
    returns (pfirst: array<seq<Word>>)
    requires WellFormed(g) && pempty.Length == g.nnonter + 1 && AllProductions(g, pres) && Solves(g, pempty[..], best)
    ensures fresh(pfirst) && TableOk(g, pfirst[..])
    ensures Within(Sets(pfirst[..]), best) && AllHeadsIn(g, pempty[..], Sets(pfirst[..]))
  {
    pfirst := new seq<Word>[g.nnonter + 1](_ => []);
    for i := 0 to g.nnonter + 1
      invariant forall k :: 0 <= k < i ==> WordsOk(g, pfirst[k]) && Tokens(pfirst[k]) <= best[k]
      invariant forall k: nat :: k < i ==> HeadsIn(g, pempty[..], Sets(pfirst[..]), k)
    {
      ghost var was := Sets(pfirst[..]);
      FillOne(g, pempty, i, pres[i], pfirst, best);
      assert forall k: nat :: k < i ==> HeadsIn(g, pempty[..], was, k) && Sets(pfirst[..])[k] == was[k];
    }
  }

  /** The first n productions of nonterminal i are covered. */
  ghost predicate CoveredAll(g: Grammar, pempty: seq<int>, first: seq<set<nat>>, i: nat, ps: seq<seq<int>>, n: nat)
  {
    forall s: nat, r: nat :: s < n && s < |ps| && IsProductionOf(g, i, ps[s], r) ==> CoveredRule(g, pempty, first, r)
  }

  lemma SolvesFrom(g: Grammar, pempty: seq<int>, pres: seq<seq<seq<int>>>, first: seq<set<nat>>)
    requires WellFormed(g) && AllProductions(g, pres) && |first| == g.nnonter + 1
    requires forall i: nat :: i < |pres| ==> CoveredAll(g, pempty, first, i, pres[i], |pres[i]|)
    ensures Solves(g, pempty, first)
  {
    forall r: nat | HasRule(g, r)
      ensures CoveredRule(g, pempty, first, r)
    {
      RuleShape(g, r);
      var i: nat := Lhs(g, r) - NTBASE;
      assert IsProductionOf(g, i, Tail(g, r), r);
      assert Tail(g, r) in pres[i];
      var s :| 0 <= s < |pres[i]| && pres[i][s] == Tail(g, r);
    }
  }

  /** Heads stay in when the sets grow. */
  lemma HeadsGrow(g: Grammar, pempty: seq<int>, a: seq<set<nat>>, b: seq<set<nat>>)
    requires AllHeadsIn(g, pempty, a) && Within(a, b)
    ensures AllHeadsIn(g, pempty, b)
  {
    forall i: nat, r: nat | i < |b| && HasRule(g, r) && Lhs(g, r) == NTBASE + i
      ensures HasHeadToken(pempty, b[i], Rhs(g, r))
    {
      assert HeadsIn(g, pempty, a, i);
    }
  }

  /** One round of the second half of cpfir over the productions of one nonterminal;
      before and changes are the changes flag on entry and on exit. */
  method PassOver(g: Grammar, pempty: array<int>, i: nat, curres: seq<seq<int>>, pfirst: array<seq<Word>>, before: bool,
                  ghost was: seq<set<nat>>, ghost best: seq<set<nat>>)
    returns (changes: bool)
    requires WellFormed(g) && pempty.Length == pfirst.Length == g.nnonter + 1 && i < pfirst.Length
    requires forall q :: q in curres <==> exists r: nat :: IsProductionOf(g, i, q, r)
    requires TableOk(g, pfirst[..]) && Solves(g, pempty[..], best)
    requires Within(was, Sets(pfirst[..])) && Within(Sets(pfirst[..]), best) && AllHeadsIn(g, pempty[..], was)
    requires before <==> Sets(pfirst[..]) != was
    modifies pfirst
    ensures TableOk(g, pfirst[..])
    ensures Within(was, Sets(pfirst[..])) && Within(Sets(pfirst[..]), best)
    ensures changes <==> Sets(pfirst[..]) != was
    ensures before ==> changes
    ensures !changes ==> CoveredAll(g, pempty[..], was, i, curres, |curres|)
  {
    changes := before;
    ghost var now, empt := Sets(pfirst[..]), pempty[..];
    for s := 0 to |curres|
      invariant TableOk(g, pfirst[..]) && now == Sets(pfirst[..])
      invariant Within(was, now) && Within(now, best)
      invariant changes <==> now != was
      invariant before ==> changes
      invariant !changes ==> CoveredAll(g, empt, was, i, curres, s)
    {
      assert curres[s] in curres;
      ghost var r: nat :| IsProductionOf(g, i, curres[s], r);
      HeadsGrow(g, empt, was, now);
      assert HeadsIn(g, empt, now, i);
      var grew := CloseOver(g, pempty, r, curres[s], i, pfirst, best);
      ghost var next := Sets(pfirst[..]);
      NoShrink(was, now, next);
      changes := changes || grew;
      if !changes {
        CoveredOneMore(g, empt, was, i, curres, s, r);
      }
      now := next;
    }
  }

  lemma CoveredOneMore(g: Grammar, pempty: seq<int>, first: seq<set<nat>>, i: nat, ps: seq<seq<int>>, n: nat, r: nat)
    requires CoveredAll(g, pempty, first, i, ps, n) && n < |ps| && IsProductionOf(g, i, ps[n], r)
    requires CoveredRule(g, pempty, first, r)
    ensures CoveredAll(g, pempty, first, i, ps, n + 1)
  {
    forall r': nat | IsProductionOf(g, i, ps[n], r')
      ensures CoveredRule(g, pempty, first, r')
    {
      TailGivesRhs(g, i, ps[n], r, r');
    }
  }

  /** One round of the second half of cpfir. */
  method OnePass(g: Grammar, pempty: array<int>, pres: seq<seq<seq<int>>>, pfirst: array<seq<Word>>,
                 ghost best: seq<set<nat>>)
    returns (changes: bool)
    requires WellFormed(g) && pempty.Length == g.nnonter + 1 && AllProductions(g, pres)
    requires TableOk(g, pfirst[..]) && Within(Sets(pfirst[..]), best) && Solves(g, pempty[..], best)
    requires AllHeadsIn(g, pempty[..], Sets(pfirst[..]))
    modifies pfirst
    ensures TableOk(g, pfirst[..])
    ensures Within(old(Sets(pfirst[..])), Sets(pfirst[..])) && Within(Sets(pfirst[..]), best)
    ensures AllHeadsIn(g, pempty[..], Sets(pfirst[..]))
    ensures changes <==> Sets(pfirst[..]) != old(Sets(pfirst[..]))
    ensures !changes ==> Solves(g, pempty[..], Sets(pfirst[..]))
  {
    ghost var was, empt := Sets(pfirst[..]), pempty[..];
    changes := false;
    for i := 0 to g.nnonter + 1
      invariant TableOk(g, pfirst[..])
      invariant Within(was, Sets(pfirst[..])) && Within(Sets(pfirst[..]), best)
      invariant changes <==> Sets(pfirst[..]) != was
      invariant !changes ==> forall k: nat :: k < i ==> CoveredAll(g, empt, was, k, pres[k], |pres[k]|)
    {
      changes := PassOver(g, pempty, i, pres[i], pfirst, changes, was, best);
    }
    HeadsGrow(g, empt, was, Sets(pfirst[..]));
    if !changes {
      SolvesFrom(g, empt, pres, was);
    }
  }

  /** Both halves: the sets are a solution of the FIRST equations, and within any other. */
  method LeastFirst(g: Grammar, pempty: array<int>, pres: seq<seq<seq<int>>>, ghost best: seq<set<nat>>)
    returns (pfirst: array<seq<Word>>)
    requires WellFormed(g) && pempty.Length == g.nnonter + 1 && AllProductions(g, pres)
    requires Solves(g, pempty[..], best)
    ensures fresh(pfirst) && TableOk(g, pfirst[..])
    ensures Solves(g, pempty[..], Sets(pfirst[..])) && Within(Sets(pfirst[..]), best)
  {
    ghost var empt := pempty[..];
    pfirst := InitialFill(g, pempty, pres, best);
    var changes := true;
    while changes
      invariant TableOk(g, pfirst[..]) && pempty[..] == empt
      invariant Within(Sets(pfirst[..]), best) && AllHeadsIn(g, empt, Sets(pfirst[..]))
      invariant !changes ==> Solves(g, empt, Sets(pfirst[..]))
      decreases Missing(Sets(pfirst[..]), best), changes
    {
      ghost var was := Sets(pfirst[..]);
      changes := OnePass(g, pempty, pres, pfirst, best);
      FewerMissing(was, Sets(pfirst[..]), best);
    }
  }

  /** cpfir, given the exact pempty: the sets end up exact. */
  method Cpfir(g: Grammar, pempty: array<int>, pres: seq<seq<seq<int>>>) returns (pfirst: array<seq<Word>>)
    requires WellFormed(g) && ExactEmpty(g, pempty[..]) && AllProductions(g, pres)
    ensures fresh(pfirst) && TableOk(g, pfirst[..])
    ensures ExactFirst(g, Sets(pfirst[..]))
  {
    ghost var empt := pempty[..];
    ghost var best := TrueFirst(g);
    TrueFirstSolves(g, empt);
    pfirst := LeastFirst(g, pempty, pres, best);
    SolutionHasTrueFirst(g, empt, Sets(pfirst[..]));
    assert forall i :: 0 <= i <= g.nnonter ==> Sets(pfirst[..])[i] == best[i];
  }
}
