/** Why a lookahead may be attached to an item: it can follow in a sentential form. */
module LookaheadMeaning {
  import opened Grammars
  import opened Items
  import opened Lookaheads
  import opened WorkingSets

  /** alpha ends in the recognised part of the item, and its left-hand side may stand there
      with y behind it. */
  ghost predicate Viable(g: Grammar, alpha: seq<int>, it: Lr0, delta: seq<int>, y: seq<int>) {
    && ValidItem(g, it) && alpha == delta + Rhs(g, it.rule)[..it.dot]
    && Derives(g, [NTBASE], delta + [Lhs(g, it.rule)] + y)
  }

  ghost predicate ItemMeans(g: Grammar, alpha: seq<int>, it: Lr0) {
    exists delta, y :: Viable(g, alpha, it, delta, y)
  }

  /** As ItemMeans, with the token t directly behind the left-hand side. */
  ghost predicate LookMeans(g: Grammar, alpha: seq<int>, it: Lr0, t: int) {
    exists delta, y :: Viable(g, alpha, it, delta, [t] + y)
  }

  lemma ViableShift(g: Grammar, alpha: seq<int>, it: Lr0, delta: seq<int>, y: seq<int>)
    requires Viable(g, alpha, it, delta, y) && it.dot < |Rhs(g, it.rule)|
    ensures Viable(g, alpha + [Next(g, it)], Lr0(it.rule, it.dot + 1), delta, y)
  {
    assert Rhs(g, it.rule)[..it.dot + 1] == Rhs(g, it.rule)[..it.dot] + [Next(g, it)];
    assert alpha + [Next(g, it)] == delta + Rhs(g, it.rule)[..it.dot + 1];
  }

  /** Rewriting the left-hand side, and the symbols after the next one, to w. */
  lemma ViableClose(g: Grammar, alpha: seq<int>, it: Lr0, delta: seq<int>, y: seq<int>, r: nat, w: seq<int>)
    requires Viable(g, alpha, it, delta, y) && Introduces(g, it, r)
    requires it.dot < |Rhs(g, it.rule)| && Derives(g, RestOf(g, it), w)
    ensures Viable(g, alpha, Lr0(r, 0), alpha, w + y)
  {
    hide Derives;
    var rhs, b := Rhs(g, it.rule), Lhs(g, r);
    var rest := RestOf(g, it);
    assert rhs == rhs[..it.dot] + [b] + rest;
    DerivesNothing(g, rhs);
    DerivesByRule(g, it.rule, rhs);
    DerivesInside(g, [NTBASE], delta, [Lhs(g, it.rule)], y, rhs);
    assert delta + rhs + y == (alpha + [b]) + rest + y;
    DerivesInside(g, [NTBASE], alpha + [b], rest, y, w);
    assert (alpha + [b]) + w + y == alpha + [b] + (w + y);
  }

  lemma IntroducesInside(g: Grammar, it: Lr0, r: nat)
    requires Introduces(g, it, r)
    ensures it.dot < |Rhs(g, it.rule)|
  {
  }

  lemma ItemShift(g: Grammar, alpha: seq<int>, it: Lr0)
    requires ItemMeans(g, alpha, it) && it.dot < |Rhs(g, it.rule)|
    ensures ItemMeans(g, alpha + [Next(g, it)], Lr0(it.rule, it.dot + 1))
  {
    var delta, y :| Viable(g, alpha, it, delta, y);
    ViableShift(g, alpha, it, delta, y);
  }

  lemma ItemClose(g: Grammar, alpha: seq<int>, it: Lr0, r: nat)
    requires ItemMeans(g, alpha, it) && Introduces(g, it, r)
    ensures ItemMeans(g, alpha, Lr0(r, 0))
  {
    IntroducesInside(g, it, r);
    var delta, y :| Viable(g, alpha, it, delta, y);
    DerivesNothing(g, RestOf(g, it));
    ViableClose(g, alpha, it, delta, y, r, RestOf(g, it));
  }

  lemma LookShift(g: Grammar, alpha: seq<int>, it: Lr0, t: int)
    requires LookMeans(g, alpha, it, t) && it.dot < |Rhs(g, it.rule)|
    ensures LookMeans(g, alpha + [Next(g, it)], Lr0(it.rule, it.dot + 1), t)
  {
    var delta, y :| Viable(g, alpha, it, delta, [t] + y);
    ViableShift(g, alpha, it, delta, [t] + y);
  }

  /** A lookahead passed on because the rest can vanish. */
  lemma LookPass(g: Grammar, alpha: seq<int>, it: Lr0, t: int, r: nat)
    requires LookMeans(g, alpha, it, t) && Introduces(g, it, r) && it.dot < |Rhs(g, it.rule)|
    requires Derives(g, RestOf(g, it), [])
    ensures LookMeans(g, alpha, Lr0(r, 0), t)
  {
    var delta, y :| Viable(g, alpha, it, delta, [t] + y);
    ViableClose(g, alpha, it, delta, [t] + y, r, []);
    assert [] + ([t] + y) == [t] + y;
  }

  /** A lookahead that begins the rest. */
  lemma LookBegin(g: Grammar, alpha: seq<int>, it: Lr0, t: int, r: nat, w: seq<int>)
    requires ItemMeans(g, alpha, it) && Introduces(g, it, r) && it.dot < |Rhs(g, it.rule)|
    requires Derives(g, RestOf(g, it), w) && |w| > 0 && w[0] == t
    ensures LookMeans(g, alpha, Lr0(r, 0), t)
  {
    var delta, y :| Viable(g, alpha, it, delta, y);
    ViableClose(g, alpha, it, delta, y, r, w);
    assert w + y == [t] + (w[1..] + y);
  }

  // ------------------------------------------------------------------ states

  ghost predicate Leads(g: Grammar, m: Automaton, alpha: seq<int>, i: int) {
    exists states :: Path(g, m, states, alpha) && states[|alpha|] == i
  }

  lemma {:induction false} CornerMeans(g: Grammar, alpha: seq<int>, it: Lr0, c: int, n: nat, r: nat)
    requires ItemMeans(g, alpha, it) && Next(g, it) >= NTBASE && Corner(g, Next(g, it), c, n)
    requires HasRule(g, r) && Lhs(g, r) == c
    ensures ItemMeans(g, alpha, Lr0(r, 0))
    decreases n
  {
    if n == 0 {
      ItemClose(g, alpha, it, r);
    } else {
      var q: nat :| CornerStep(g, Next(g, it), q) && Corner(g, Rhs(g, q)[0], c, n - 1);
      ItemClose(g, alpha, it, q);
      CornerMeans(g, alpha, Lr0(q, 0), c, n - 1, r);
    }
  }

  lemma StartMeans(g: Grammar)
    requires WellFormed(g)
    ensures ItemMeans(g, [], StartItem)
  {
    RuleShape(g, 0);
    DerivesNothing(g, [NTBASE]);
    assert [] + [NTBASE] + [] == [NTBASE];
    assert Viable(g, [], StartItem, [], []);
  }

  /** Every item in the closure of a state means something for every path to the state. */
  lemma {:induction false} ItemsMean(g: Grammar, m: Automaton, states: seq<int>, alpha: seq<int>, it: Lr0)
    requires WellFormed(g) && KernelsOk(g, m) && Path(g, m, states, alpha)
    requires 0 <= states[|alpha|] < |m.kernels|
    requires ValidItem(g, it) && InClosure(g, m.kernels[states[|alpha|]], it)
    ensures ItemMeans(g, alpha, it)
    decreases |alpha|, if it in m.kernels[states[|alpha|]] then 0 else 1
  {
    var kernel := m.kernels[states[|alpha|]];
    assert KernelOk(g, kernel);
    if it in kernel {
      KernelMeans(g, m, states, alpha, it);
    } else {
      var k :| k in kernel && ValidItem(g, k) && Next(g, k) >= NTBASE && LeftCorner(g, Next(g, k), Lhs(g, it.rule));
      var n: nat :| Corner(g, Next(g, k), Lhs(g, it.rule), n);
      ItemsMean(g, m, states, alpha, k);
      CornerMeans(g, alpha, k, Lhs(g, it.rule), n, it.rule);
    }
  }

  lemma {:induction false} KernelMeans(g: Grammar, m: Automaton, states: seq<int>, alpha: seq<int>, it: Lr0)
    requires WellFormed(g) && KernelsOk(g, m) && Path(g, m, states, alpha)
    requires 0 <= states[|alpha|] < |m.kernels| && it in m.kernels[states[|alpha|]]
    ensures ItemMeans(g, alpha, it)
    decreases |alpha|, 0, 0
  {
    PathState(g, m, states, alpha, |alpha|);
    assert KernelOk(g, m.kernels[states[|alpha|]]);
    if it.dot == 0 {
      StartMeans(g);
      assert alpha == [];
    } else {
      var n := |alpha|;
      StepBack(g, m, states, alpha, it);
      PathPrefix(g, m, states, alpha, n - 1);
      ItemsMean(g, m, states[..n], alpha[..n - 1], Lr0(it.rule, it.dot - 1));
      ItemShift(g, alpha[..n - 1], Lr0(it.rule, it.dot - 1));
      assert alpha == alpha[..n - 1] + [alpha[n - 1]];
    }
  }

  /** Some path leads to the state, and t can follow the item there. */
  ghost predicate Justifies(g: Grammar, m: Automaton, i: int, it: Lr0, t: int) {
    exists alpha :: Leads(g, m, alpha, i) && LookMeans(g, alpha, it, t)
  }

  ghost function JustMap(f: Facts, m: Automaton, i: int): LookMap
    requires 0 <= i < |m.kernels|
  {
    map it | it in AllItems(f.g) && ValidItem(f.g, it) && InClosure(f.g, m.kernels[i], it) :: JustSet(f, m, i, it)
  }

  ghost function JustSet(f: Facts, m: Automaton, i: int, it: Lr0): set<nat> {
    set t: nat | t in UpTo(f.g.ntokens) && Justifies(f.g, m, i, it, t)
  }

  /** The justified lookaheads are closed under the LR(1) closure rule. */
  lemma JustifiedClosed(f: Facts, m: Automaton, i: int, alpha: seq<int>)
    requires FactsOk(f) && KernelsOk(f.g, m) && 0 <= i < |m.kernels| && Leads(f.g, m, alpha, i)
    ensures ClosedMap(f, JustMap(f, m, i))
  {
    var g, map_ := f.g, JustMap(f, m, i);
    forall it, r: nat | it in map_ && Introduces(g, it, r)
      ensures Lr0(r, 0) in map_ && PassesOn(f, it, map_[it]) <= map_[Lr0(r, 0)]
    {
      ClosureStep(g, m.kernels[i], it, r);
      IntroducesInside(g, it, r);
      assert Lr0(r, 0) in AllItems(g);
      forall t | t in PassesOn(f, it, map_[it])
        ensures t in map_[Lr0(r, 0)]
      {
        PassedIsJustified(f, m, i, alpha, it, r, t);
      }
    }
  }

  lemma PassedIsJustified(f: Facts, m: Automaton, i: int, alpha: seq<int>, it: Lr0, r: nat, t: nat)
    requires FactsOk(f) && KernelsOk(f.g, m) && 0 <= i < |m.kernels| && Leads(f.g, m, alpha, i)
    requires ValidItem(f.g, it) && InClosure(f.g, m.kernels[i], it) && Introduces(f.g, it, r)
    requires t in PassesOn(f, it, JustSet(f, m, i, it))
    ensures t in JustSet(f, m, i, Lr0(r, 0))
  {
    var g := f.g;
    IntroducesInside(g, it, r);
    RuleShape(g, it.rule);
    var rest := RestOf(g, it);
    forall s | s in rest
      ensures IsToken(g, s) || IsNonter(g, s)
    {
      assert s in Rhs(g, it.rule);
    }
    RestLookExact(f, rest, JustSet(f, m, i, it), t);
    if IsToken(g, t) && exists w :: Derives(g, rest, w) && |w| > 0 && w[0] == t {
      var w :| Derives(g, rest, w) && |w| > 0 && w[0] == t;
      var states :| Path(g, m, states, alpha) && states[|alpha|] == i;
      ItemsMean(g, m, states, alpha, it);
      LookBegin(g, alpha, it, t, r, w);
    } else {
      var beta :| Leads(g, m, beta, i) && LookMeans(g, beta, it, t);
      LookPass(g, beta, it, t, r);
    }
  }
}

/** What stagen keeps true about the collection of states it is building. */
module Collecting {
  import opened Grammars
  import opened Items
  import opened Lookaheads
  import opened WorkingSets
  import opened Kernels
  import opened KernelStore
  import opened LookaheadMeaning

  // ------------------------------------------------------------------ growing automata

  ghost predicate Extends(m: Automaton, m': Automaton) {
    && |m.kernels| == |m.access| && |m'.kernels| == |m'.access|
    && m.kernels <= m'.kernels && m.access <= m'.access
  }

  lemma TransExtends(g: Grammar, m: Automaton, m': Automaton, i: int, x: int, j: int)
    requires Extends(m, m') && Trans(g, m, i, x, j)
    ensures Trans(g, m', i, x, j)
  {
  }

  lemma LeadsExtends(g: Grammar, m: Automaton, m': Automaton, alpha: seq<int>, i: int)
    requires Extends(m, m') && Leads(g, m, alpha, i)
    ensures Leads(g, m', alpha, i)
  {
    var states :| Path(g, m, states, alpha) && states[|alpha|] == i;
    forall k | 0 <= k < |alpha|
      ensures Trans(g, m', states[k], alpha[k], states[k + 1])
    {
      TransExtends(g, m, m', states[k], alpha[k], states[k + 1]);
    }
    assert Path(g, m', states, alpha);
  }

  lemma JustifiesExtends(g: Grammar, m: Automaton, m': Automaton, i: int, it: Lr0, t: int)
    requires Extends(m, m') && Justifies(g, m, i, it, t)
    ensures Justifies(g, m', i, it, t)
  {
    var alpha :| Leads(g, m, alpha, i) && LookMeans(g, alpha, it, t);
    LeadsExtends(g, m, m', alpha, i);
  }

  lemma LeadsStep(g: Grammar, m: Automaton, alpha: seq<int>, i: int, x: int, j: int)
    requires Leads(g, m, alpha, i) && Trans(g, m, i, x, j)
    ensures Leads(g, m, alpha + [x], j)
  {
    var states :| Path(g, m, states, alpha) && states[|alpha|] == i;
    assert Path(g, m, states + [j], alpha + [x]);
  }

  lemma JustifiesShift(g: Grammar, m: Automaton, i: int, it: Lr0, t: int, x: int, j: int)
    requires Justifies(g, m, i, it, t) && Trans(g, m, i, x, j)
    requires ValidItem(g, it) && it.dot < |Rhs(g, it.rule)| && Next(g, it) == x
    ensures Justifies(g, m, j, Lr0(it.rule, it.dot + 1), t)
  {
    var alpha :| Leads(g, m, alpha, i) && LookMeans(g, alpha, it, t);
    LookShift(g, alpha, it, t);
    LeadsStep(g, m, alpha, i, x, j);
  }

  // ------------------------------------------------------------------ progress

  ghost predicate GotosIn(g: Grammar, m: Automaton, i: int) {
    forall x :: x > ENDTOK && Expects(g, m, i, x) ==> exists j :: Trans(g, m, i, x, j)
  }

  ghost predicate HasPredecessors(g: Grammar, m: Automaton) {
    forall j :: 0 < j < |m.kernels| ==> HasPredecessor(g, m, j)
  }

  ghost predicate Completed(g: Grammar, m: Automaton, tystate: seq<int>, but: int) {
    forall i :: 0 <= i < |m.kernels| && i < |tystate| && i != but && tystate[i] != MUSTDO ==> GotosIn(g, m, i)
  }

  /** No production that could be reduced, or wait for $end, at once enters the closure. */
  ghost predicate NoEmpties(g: Grammar, kernel: set<Lr0>) {
    forall it :: InClosure(g, kernel, it) && ValidItem(g, it) && it !in kernel ==> Next(g, it) > ENDTOK
  }

  /** A state that is neither waiting nor marked as needing lookaheads. */
  predicate Quiet(ty: int) {
    ty != MUSTDO && ty != MUSTLOOKAHEAD
  }

  ghost predicate EmptiesMarked(g: Grammar, m: Automaton, tystate: seq<int>, but: int) {
    forall i :: 0 <= i < |m.kernels| && i < |tystate| && i != but && Quiet(tystate[i]) ==> NoEmpties(g, m.kernels[i])
  }

  ghost predicate LooksJust(g: Grammar, m: Automaton, i: int, kern: seq<Item>) {
    forall it, t :: t in KernLook(kern, it) ==> Justifies(g, m, i, it, t)
  }

  ghost predicate AllLooksJust(g: Grammar, m: Automaton, sm: seq<Item>, ps: seq<int>) {
    forall i :: 0 <= i < |m.kernels| ==> LooksJust(g, m, i, KernAt(sm, ps, i))
  }

  /** The gotos of every state but one, and of the states not yet taken up, are in. */
  ghost predicate GotosKept(g: Grammar, m: Automaton, tystate: seq<int>, but: int) {
    HasPredecessors(g, m) && Completed(g, m, tystate, but) && EmptiesMarked(g, m, tystate, but)
  }

  lemma GotosInExtends(g: Grammar, m: Automaton, m': Automaton, i: int)
    requires Extends(m, m') && 0 <= i < |m.kernels| && GotosIn(g, m, i)
    ensures GotosIn(g, m', i)
  {
    forall x | x > ENDTOK && Expects(g, m', i, x)
      ensures exists j :: Trans(g, m', i, x, j)
    {
      assert Expects(g, m, i, x);
      var j :| Trans(g, m, i, x, j);
      TransExtends(g, m, m', i, x, j);
    }
  }

  lemma PredecessorExtends(g: Grammar, m: Automaton, m': Automaton, j: int)
    requires Extends(m, m') && HasPredecessor(g, m, j)
    ensures HasPredecessor(g, m', j)
  {
    var i :| 0 <= i < j && Trans(g, m, i, m.access[j], j);
    TransExtends(g, m, m', i, m.access[j], j);
  }

  /** A goto from state but has been entered: at most one state is new, and flags have only
      been raised to MUSTDO. */
  lemma GotosAfterState(g: Grammar, m: Automaton, m': Automaton, ty: seq<int>, ty': seq<int>, but: int, x: int, j: int)
    requires GotosKept(g, m, ty, but) && Extends(m, m') && |ty'| == |ty| && |m'.kernels| <= |ty|
    requires |m'.kernels| == |m.kernels| || (j == |m.kernels| && |m'.kernels| == j + 1)
    requires 0 <= but < |m.kernels| && Trans(g, m', but, x, j) && x > ENDTOK
    requires forall k :: 0 <= k < |ty| ==> ty'[k] == ty[k] || ty'[k] == MUSTDO
    requires |m.kernels| < |m'.kernels| ==> ty'[j] == MUSTDO
    ensures GotosKept(g, m', ty', but)
  {
    forall k | 0 < k < |m'.kernels|
      ensures HasPredecessor(g, m', k)
    {
      if k < |m.kernels| {
        PredecessorExtends(g, m, m', k);
      } else {
        assert Trans(g, m', but, m'.access[k], k);
      }
    }
    forall i | 0 <= i < |m'.kernels| && i != but && ty'[i] != MUSTDO
      ensures GotosIn(g, m', i)
    {
      GotosInExtends(g, m, m', i);
    }
  }

  /** After an entry for state j has been found or made from the items picked at state i. */
  lemma LooksAfterState(g: Grammar, m: Automaton, m': Automaton, sm: seq<Item>, ps: seq<int>, sm': seq<Item>,
                        ps': seq<int>, j: int, picked: seq<Item>)
    requires AllLooksJust(g, m, sm, ps) && Extends(m, m') && 0 <= j < |m'.kernels|
    requires |m'.kernels| == |m.kernels| || (j == |m.kernels| && |m'.kernels| == j + 1)
    requires OthersKept(sm, ps, |m.kernels|, sm', ps', j) && LooksTaken(sm, ps, |m.kernels|, sm', ps', j, picked)
    requires LooksJust(g, m', j, picked)
    ensures AllLooksJust(g, m', sm', ps')
  {
    forall i, it, t | 0 <= i < |m'.kernels| && t in KernLook(KernAt(sm', ps', i), it)
      ensures Justifies(g, m', i, it, t)
    {
      if i != j || t !in KernLook(picked, it) {
        assert LooksJust(g, m, i, KernAt(sm, ps, i));
        JustifiesExtends(g, m, m', i, it, t);
      }
    }
    forall i | 0 <= i < |m'.kernels|
      ensures LooksJust(g, m', i, KernAt(sm', ps', i))
    {
    }
  }

  lemma LooksFrame(g: Grammar, m: Automaton, sm: seq<Item>, ps: seq<int>, sm': seq<Item>, ps': seq<int>)
    requires AllLooksJust(g, m, sm, ps) && SameKerns(sm, ps, sm', ps', |m.kernels|)
    ensures AllLooksJust(g, m, sm', ps')
  {
    forall i | 0 <= i < |m.kernels|
      ensures LooksJust(g, m, i, KernAt(sm', ps', i))
    {
      assert LooksJust(g, m, i, KernAt(sm, ps, i));
    }
  }

  /** Every state is reached by some path. */
  lemma {:induction false} Reached(g: Grammar, m: Automaton, i: int) returns (alpha: seq<int>)
    requires HasPredecessors(g, m) && |m.kernels| == |m.access| && 0 <= i < |m.kernels|
    ensures Leads(g, m, alpha, i)
    decreases i
  {
    if i == 0 {
      alpha := [];
      assert Path(g, m, [0], []);
    } else {
      assert HasPredecessor(g, m, i);
      var h :| 0 <= h < i && Trans(g, m, h, m.access[i], i);
      alpha := Reached(g, m, h);
      LeadsStep(g, m, alpha, h, m.access[i], i);
      alpha := alpha + [m.access[i]];
    }
  }

  // ------------------------------------------------------------------ picking a goto

  /** The items that putitem is called with for symbol c, up to position n. */
  ghost function Picked(ws: seq<Wset>, c: int, n: nat): seq<Item>
    requires n <= |ws|
  {
    if n == 0 then [] else Picked(ws, c, n - 1) + PickedAt(ws[n - 1], c)
  }

  ghost function PickedAt(w: Wset, c: int): seq<Item> {
    if w.pitem.first == c && 0 <= w.pitem.off && w.pitem.off + 1 < |w.pitem.prod| then [Item(Advance(w.pitem), w.ws)]
    else []
  }

  lemma PickedUnfold(ws: seq<Wset>, c: int, n: nat)
    requires n < |ws|
    ensures Picked(ws, c, n + 1) == Picked(ws, c, n) + PickedAt(ws[n], c)
  {
  }

  lemma {:induction false} PickedNone(ws: seq<Wset>, c: int, n: nat)
    requires n <= |ws| && forall k :: 0 <= k < n ==> ws[k].pitem.first != c
    ensures Picked(ws, c, n) == []
  {
    if n > 0 {
      PickedNone(ws, c, n - 1);
    }
  }

  ghost predicate Moved(g: Grammar, w: Wset, x: Item, c: int) {
    && PitemOk(g, w.pitem) && w.pitem.first == c
    && PitemOk(g, x.pitem) && ItemOf(x.pitem) == Lr0(ItemOf(w.pitem).rule, ItemOf(w.pitem).dot + 1) && x.look == w.ws
  }

  /** Every picked entry is a working set entry moved over c, later ones from later entries. */
  ghost predicate PickedFrom(g: Grammar, ws: seq<Wset>, c: int, n: nat, picked: seq<Item>, src: seq<nat>) {
    && n <= |ws| && |src| == |picked|
    && (forall k :: 0 <= k < |src| ==> src[k] < n && Moved(g, ws[src[k]], picked[k], c))
    && (forall j, k :: 0 <= j < k < |src| ==> src[j] < src[k])
    && forall q :: 0 <= q < n && ws[q].pitem.first == c ==> q in src
  }

  lemma {:induction false} PickedSources(g: Grammar, ws: seq<Wset>, c: int, n: nat) returns (src: seq<nat>)
    requires WellFormed(g) && n <= |ws| && c > 0 && forall k :: 0 <= k < |ws| ==> PitemOk(g, ws[k].pitem)
    ensures PickedFrom(g, ws, c, n, Picked(ws, c, n), src)
  {
    hide PitemOk, WellFormed, Moved;
    if n == 0 {
      src := [];
    } else {
      var before := PickedSources(g, ws, c, n - 1);
      src := PickedStep(g, ws, c, n - 1, Picked(ws, c, n - 1), before);
    }
  }

  lemma PickedStep(g: Grammar, ws: seq<Wset>, c: int, n: nat, picked: seq<Item>, before: seq<nat>)
    returns (src: seq<nat>)
    requires WellFormed(g) && n < |ws| && c > 0 && PitemOk(g, ws[n].pitem)
    requires PickedFrom(g, ws, c, n, picked, before)
    ensures PickedFrom(g, ws, c, n + 1, picked + PickedAt(ws[n], c), src)
  {
    if ws[n].pitem.first == c {
      PickedAtMoved(g, ws[n], c);
      src := before + [n];
      assert src[|src| - 1] == n;
      forall q | 0 <= q < n && ws[q].pitem.first == c
        ensures q in src
      {
        assert q in before;
      }
    } else {
      src := before;
    }
  }

  lemma PickedAtMoved(g: Grammar, w: Wset, c: int)
    requires WellFormed(g) && c > 0 && PitemOk(g, w.pitem) && w.pitem.first == c
    ensures |PickedAt(w, c)| == 1 && Moved(g, w, PickedAt(w, c)[0], c)
  {
    AdvanceOk(g, w.pitem);
  }

  lemma PickedShape(g: Grammar, ws: seq<Wset>, c: int, picked: seq<Item>, src: seq<nat>)
    requires PickedFrom(g, ws, c, |ws|, picked, src) && picked != []
    requires forall j, k :: 0 <= j < k < |ws| ==> ItemOf(ws[j].pitem) != ItemOf(ws[k].pitem)
    requires forall k, t :: 0 <= k < |ws| && t in ws[k].ws ==> t <= g.ntokens
    ensures CoreShape(g, picked) && LooksBounded(g, picked)
  {
    forall j, k | 0 <= j < k < |picked|
      ensures ItemOf(picked[j].pitem) != ItemOf(picked[k].pitem)
    {
      assert Moved(g, ws[src[j]], picked[j], c) && Moved(g, ws[src[k]], picked[k], c);
      assert src[j] < src[k];
    }
    forall k | 0 <= k < |picked|
      ensures PitemOk(g, picked[k].pitem) && ItemOf(picked[k].pitem).dot > 0
      ensures forall t :: t in picked[k].look ==> t <= g.ntokens
    {
      assert Moved(g, ws[src[k]], picked[k], c);
    }
  }

  lemma PickedInGoto(f: Facts, nolook: bool, kernel: seq<Item>, ws: seq<Wset>, c: int, picked: seq<Item>, src: seq<nat>,
                     k: nat)
    requires ClosureDone(f, nolook, kernel, ws) && c > 0 && PickedFrom(f.g, ws, c, |ws|, picked, src) && k < |picked|
    ensures InGoto(f.g, KernelSet(kernel), c, ItemOf(picked[k].pitem))
  {
    assert Moved(f.g, ws[src[k]], picked[k], c);
    PitemShape(f.g, ws[src[k]].pitem);
    ClosureItems(f, nolook, kernel, ws, ItemOf(ws[src[k]].pitem));
    assert HasItem(ws, ItemOf(ws[src[k]].pitem));
  }

  lemma GotoInPicked(f: Facts, nolook: bool, kernel: seq<Item>, ws: seq<Wset>, c: int, picked: seq<Item>, src: seq<nat>,
                     it: Lr0)
    requires ClosureDone(f, nolook, kernel, ws) && c > 0 && PickedFrom(f.g, ws, c, |ws|, picked, src)
    requires InGoto(f.g, KernelSet(kernel), c, it)
    ensures it in KernelSet(picked)
  {
    ClosureItems(f, nolook, kernel, ws, Lr0(it.rule, it.dot - 1));
    var v :| 0 <= v < |ws| && ItemOf(ws[v].pitem) == Lr0(it.rule, it.dot - 1);
    assert PitemOk(f.g, ws[v].pitem);
    PitemShape(f.g, ws[v].pitem);
    assert v in src;
    var k :| 0 <= k < |src| && src[k] == v;
    assert Moved(f.g, ws[src[k]], picked[k], c);
    assert ItemOf(picked[k].pitem) == it;
  }

  lemma GotoEntered(g: Grammar, kernel: set<Lr0>, c: int, target: set<Lr0>)
    requires IsGoto(g, kernel, c, target) && c > 0
    ensures EnteredBy(g, target, c)
  {
  }

  /** The items picked for c are the goto of the closure on c. */
  lemma PickedIsGoto(f: Facts, nolook: bool, kernel: seq<Item>, ws: seq<Wset>, c: int, q: nat)
    requires ClosureDone(f, nolook, kernel, ws) && c > ENDTOK && q < |ws| && ws[q].pitem.first == c
    ensures var picked := Picked(ws, c, |ws|);
      && CoreShape(f.g, picked) && LooksBounded(f.g, picked) && EnteredBy(f.g, KernelSet(picked), c)
      && IsGoto(f.g, KernelSet(kernel), c, KernelSet(picked))
  {
    var g, picked := f.g, Picked(ws, c, |ws|);
    var src := PickedSources(g, ws, c, |ws|);
    assert q in src;
    PickedShape(g, ws, c, picked, src);
    forall it
      ensures it in KernelSet(picked) <==> InGoto(g, KernelSet(kernel), c, it)
    {
      if it in KernelSet(picked) {
        var k :| 0 <= k < |picked| && ItemOf(picked[k].pitem) == it;
        PickedInGoto(f, nolook, kernel, ws, c, picked, src, k);
      }
      if InGoto(g, KernelSet(kernel), c, it) {
        GotoInPicked(f, nolook, kernel, ws, c, picked, src, it);
      }
    }
    assert ItemOf(picked[0].pitem) in KernelSet(picked);
    GotoEntered(g, KernelSet(kernel), c, KernelSet(picked));
  }

  /** When the lookaheads of the working sets are justified at state i, those picked for c
      are justified at the target of the transition. */
  lemma PickedLooksJust(g: Grammar, m: Automaton, i: int, ws: seq<Wset>, c: int, j: int)
    requires WellFormed(g) && c > 0 && forall k :: 0 <= k < |ws| ==> PitemOk(g, ws[k].pitem)
    requires Trans(g, m, i, c, j) && WsJust(g, m, i, ws)
    ensures LooksJust(g, m, j, Picked(ws, c, |ws|))
  {
    hide Justifies, Trans, Picked, WellFormed;
    var picked := Picked(ws, c, |ws|);
    var src := PickedSources(g, ws, c, |ws|);
    forall it, t | t in KernLook(picked, it)
      ensures Justifies(g, m, j, it, t)
    {
      var k :| 0 <= k < |picked| && ItemOf(picked[k].pitem) == it && t in picked[k].look;
      assert Moved(g, ws[src[k]], picked[k], c);
      PitemShape(g, ws[src[k]].pitem);
      JustifiesShift(g, m, i, ItemOf(ws[src[k]].pitem), t, c, j);
    }
  }

  ghost predicate WsJust(g: Grammar, m: Automaton, i: int, ws: seq<Wset>) {
    forall q, t :: 0 <= q < |ws| && t in ws[q].ws ==> Justifies(g, m, i, ItemOf(ws[q].pitem), t)
  }

  /** Justified kernel lookaheads lie below the map of all justified ones, which is closed. */
  lemma KernelBelowJust(f: Facts, m: Automaton, i: int, kernel: seq<Item>)
    requires FactsOk(f) && KernelsOk(f.g, m) && HasPredecessors(f.g, m) && 0 <= i < |m.kernels|
    requires KernelShape(f.g, kernel) && m.kernels[i] == KernelSet(kernel) && LooksJust(f.g, m, i, kernel)
    ensures ClosedMap(f, JustMap(f, m, i)) && Includes(kernel, JustMap(f, m, i))
  {
    var alpha := Reached(f.g, m, i);
    JustifiedClosed(f, m, i, alpha);
    var map_ := JustMap(f, m, i);
    forall k | 0 <= k < |kernel|
      ensures ItemOf(kernel[k].pitem) in map_ && kernel[k].look <= map_[ItemOf(kernel[k].pitem)]
    {
      var it := ItemOf(kernel[k].pitem);
      assert PitemOk(f.g, kernel[k].pitem);
      assert it in KernelSet(kernel) && it in AllItems(f.g);
      KernLookAt(f.g, kernel, k);
    }
  }

  /** closure keeps lookaheads justified. */
  lemma ClosureJust(f: Facts, m: Automaton, i: int, kernel: seq<Item>, ws: seq<Wset>)
    requires FactsOk(f) && KernelsOk(f.g, m) && HasPredecessors(f.g, m) && 0 <= i < |m.kernels|
    requires KernelShape(f.g, kernel) && m.kernels[i] == KernelSet(kernel) && LooksJust(f.g, m, i, kernel)
    requires ClosureDone(f, false, kernel, ws)
    ensures WsJust(f.g, m, i, ws)
  {
    KernelBelowJust(f, m, i, kernel);
    assert Below(ws, JustMap(f, m, i));
  }

  lemma WsJustExtends(g: Grammar, m: Automaton, m': Automaton, i: int, ws: seq<Wset>)
    requires WsJust(g, m, i, ws) && Extends(m, m')
    ensures WsJust(g, m', i, ws)
  {
    forall q, t | 0 <= q < |ws| && t in ws[q].ws
      ensures Justifies(g, m', i, ItemOf(ws[q].pitem), t)
    {
      JustifiesExtends(g, m, m', i, ItemOf(ws[q].pitem), t);
    }
  }
}

/** stagen: the state generation loop. */
module Generating {
  import opened Grammars
  import opened Items
  import opened Lookaheads
  import opened WorkingSets
  import opened Kernels
  import opened KernelStore
  import opened StateLists
  import opened LookaheadMeaning
  import opened Collecting
  import opened Packing
  import opened Rounds
  import Firsts

  // ------------------------------------------------------------------ measure

  /** Lookaheads that the states' items could still gain. */
  ghost function Room(g: Grammar, m: Automaton, sm: seq<Item>, ps: seq<int>): set<(int, Lr0, nat)> {
    set i, it, t: nat | 0 <= i < |m.kernels| && it in m.kernels[i] && t in UpTo(g.ntokens) &&
      t !in KernLook(KernAt(sm, ps, i), it) :: (i, it, t)
  }

  /** The states still to be taken up. */
  ghost function Todo(m: Automaton, tystate: seq<int>): set<int> {
    set x | 0 <= x < |m.kernels| && x < |tystate| && tystate[x] == MUSTDO
  }

  datatype Rank = Rank(n: int, room: set<(int, Lr0, nat)>, todo: set<int>)

  ghost predicate NotAfter(a: Rank, b: Rank) {
    b.n > a.n || (b.n == a.n && (b.room < a.room || (b.room == a.room && b.todo <= a.todo)))
  }

  ghost predicate Later(a: Rank, b: Rank) {
    b.n > a.n || (b.n == a.n && (b.room < a.room || (b.room == a.room && b.todo < a.todo)))
  }

  lemma LaterTwice(a: Rank, b: Rank, c: Rank)
    requires NotAfter(a, b) && NotAfter(b, c)
    ensures NotAfter(a, c)
    ensures Later(a, b) || Later(b, c) ==> Later(a, c)
  {
  }

  lemma SameKernsSameRoom(g: Grammar, m: Automaton, sm: seq<Item>, ps: seq<int>, sm': seq<Item>, ps': seq<int>)
    requires SameKerns(sm, ps, sm', ps', |m.kernels|)
    ensures Room(g, m, sm', ps') == Room(g, m, sm, ps)
  {
    forall i, it, t: nat | 0 <= i < |m.kernels|
      ensures (i, it, t) in Room(g, m, sm', ps') <==> (i, it, t) in Room(g, m, sm, ps)
    {
      assert KernAt(sm', ps', i) == KernAt(sm, ps, i);
    }
  }

  lemma GrewLessRoom(g: Grammar, m: Automaton, sm: seq<Item>, ps: seq<int>, sm': seq<Item>, ps': seq<int>, j: int)
    requires 0 <= j < |m.kernels|
    requires forall k :: 0 <= k < |m.kernels| && k != j ==> KernAt(sm', ps', k) == KernAt(sm, ps, k)
    requires forall it :: KernLook(KernAt(sm, ps, j), it) <= KernLook(KernAt(sm', ps', j), it)
    requires Grew(g, m.kernels[j], KernAt(sm, ps, j), KernAt(sm', ps', j))
    ensures Room(g, m, sm', ps') < Room(g, m, sm, ps)
  {
    var it, t: nat :|
      it in m.kernels[j] && t <= g.ntokens && t in KernLook(KernAt(sm', ps', j), it) &&
        t !in KernLook(KernAt(sm, ps, j), it);
    assert (j, it, t) in Room(g, m, sm, ps) && (j, it, t) !in Room(g, m, sm', ps');
    forall x | x in Room(g, m, sm', ps')
      ensures x in Room(g, m, sm, ps)
    {
      assert x.0 != j ==> KernAt(sm', ps', x.0) == KernAt(sm, ps, x.0);
    }
  }

  lemma {:induction false} PickedSameLooks(ws: seq<Wset>, ws': seq<Wset>, c: int, n: nat)
    requires SameLooks(ws, ws') && n <= |ws|
    ensures Picked(ws', c, n) == Picked(ws, c, n)
  {
    if n > 0 {
      PickedSameLooks(ws, ws', c, n - 1);
    }
  }

  /** The entries with c after the dot can be moved over it. */
  ghost predicate Movable(ws: seq<Wset>, c: int) {
    forall k :: 0 <= k < |ws| && ws[k].pitem.first == c ==>
      0 <= ws[k].pitem.off && ws[k].pitem.off + 1 < |ws[k].pitem.prod|
  }

  /** ws is the closure of state i, with justified lookaheads. */
  ghost predicate Worked(f: Facts, m: Automaton, i: int, kernel: seq<Item>, ws: seq<Wset>) {
    && 0 <= i < |m.kernels| && KernelMatches(f.g, kernel, m.kernels[i]) && |kernel| <= |ws|
    && ClosureDone(f, false, kernel, ws) && WsJust(f.g, m, i, ws)
  }

  lemma WorkedGoto(f: Facts, m: Automaton, i: int, kernel: seq<Item>, ws: seq<Wset>, c: int, p: nat)
    requires Worked(f, m, i, kernel, ws) && c > ENDTOK && p < |ws| && ws[p].pitem.first == c
    ensures var picked := Picked(ws, c, |ws|);
      && CoreShape(f.g, picked) && LooksBounded(f.g, picked) && EnteredBy(f.g, KernelSet(picked), c)
      && IsGoto(f.g, m.kernels[i], c, KernelSet(picked))
    ensures Movable(ws, c) && (IsToken(f.g, c) || NTBASE < c <= NTBASE + f.g.nnonter)
  {
    PickedIsGoto(f, false, kernel, ws, c, p);
    PitemShape(f.g, ws[p].pitem);
    forall k | 0 <= k < |ws| && ws[k].pitem.first == c
      ensures 0 <= ws[k].pitem.off && ws[k].pitem.off + 1 < |ws[k].pitem.prod|
    {
      PitemShape(f.g, ws[k].pitem);
    }
  }

  lemma WorkedLooks(f: Facts, m: Automaton, m': Automaton, i: int, kernel: seq<Item>, ws: seq<Wset>, c: int, j: int)
    requires Worked(f, m, i, kernel, ws) && Extends(m, m') && Trans(f.g, m', i, c, j) && c > 0
    ensures Worked(f, m', i, kernel, ws) && LooksJust(f.g, m', j, Picked(ws, c, |ws|))
  {
    WsJustExtends(f.g, m, m', i, ws);
    PickedLooksJust(f.g, m', i, ws, c, j);
  }

  ghost function FlagAt(ws: seq<Wset>, q: nat, c: int): seq<Wset>
    requires q < |ws|
  {
    if ws[q].pitem.first == c then ws[q := ws[q].(flag := 1)] else ws
  }

  /** Flags as the goto loop leaves them: raised for the entries with c after the dot. */
  ghost predicate Flagged(ws: seq<Wset>, ws': seq<Wset>, c: int, n: nat) {
    && SameLooks(ws, ws')
    && forall k :: 0 <= k < |ws| ==> ws'[k].flag == if k < n && ws[k].pitem.first == c then 1 else ws[k].flag
  }

  lemma FlaggedStep(ws: seq<Wset>, ws': seq<Wset>, c: int, q: nat)
    requires q < |ws| && Flagged(ws, ws', c, q)
    ensures Flagged(ws, FlagAt(ws', q, c), c, q + 1) && ws'[q] == ws[q]
    ensures Movable(ws, c) ==> Movable(ws', c)
  {
  }

  // ------------------------------------------------------------------ one state

  /** Entries before p, and those that share their symbol, carry the flag; no others do. */
  ghost predicate FlagsSwept(ws: seq<Wset>, cur: seq<Wset>, p: nat) {
    && SameLooks(ws, cur)
    && (forall k, q ::
          0 <= q < p && q < |ws| && 0 <= k < |ws| && ws[q].pitem.first > ENDTOK
          && ws[k].pitem.first == ws[q].pitem.first ==>
          cur[k].flag != 0)
    && forall k :: 0 <= k < |ws| && cur[k].flag != 0 ==> SeenBefore(ws, k, p)
  }

  ghost predicate SeenBefore(ws: seq<Wset>, k: nat, p: nat)
    requires k < |ws|
  {
    k < p ||
      (ws[k].pitem.first > ENDTOK && exists q :: 0 <= q < p && q < |ws| && ws[q].pitem.first == ws[k].pitem.first)
  }

  /** The gotos for the entries before p are in. */
  ghost predicate GotosTaken(g: Grammar, m: Automaton, i: int, ws: seq<Wset>, p: nat) {
    forall q :: 0 <= q < p && q < |ws| && ws[q].pitem.first > ENDTOK ==>
      exists j :: Trans(g, m, i, ws[q].pitem.first, j)
  }

  /** temp1 holds gotos of state i, and those of the entries before p. */
  ghost predicate RowFilled(g: Grammar, m: Automaton, i: int, ws: seq<Wset>, temp1: seq<int>, p: nat) {
    && |temp1| == g.nnonter + 1
    && (forall c: nat :: 1 <= c <= g.nnonter && temp1[c] != 0 ==> Trans(g, m, i, NTBASE + c, temp1[c]))
    && forall q :: 0 <= q < p && q < |ws| && ws[q].pitem.first > NTBASE ==>
         ws[q].pitem.first - NTBASE <= g.nnonter && temp1[ws[q].pitem.first - NTBASE] != 0
  }

  /** While state i is quiet, no entry so far asks for lookaheads. */
  ghost predicate EmptiesSeen(kernel: seq<Item>, ws: seq<Wset>, ty: int, p: nat) {
    Quiet(ty) ==> forall q :: |kernel| <= q < p && q < |ws| ==> ws[q].pitem.first > ENDTOK
  }

  ghost predicate Sweeping(g: Grammar, m: Automaton, i: int, kernel: seq<Item>, ws: seq<Wset>, cur: seq<Wset>,
                           temp1: seq<int>, ty: seq<int>, p: nat) {
    && 0 <= i < |ty| && FlagsSwept(ws, cur, p) && GotosTaken(g, m, i, ws, p)
    && RowFilled(g, m, i, ws, temp1, p) && EmptiesSeen(kernel, ws, ty[i], p)
  }

  lemma SweepStart(f: Facts, m: Automaton, i: int, kernel: seq<Item>, ws: seq<Wset>, temp1: seq<int>, ty: seq<int>)
    requires Worked(f, m, i, kernel, ws) && 0 <= i < |ty|
    requires |temp1| == f.g.nnonter + 1 && forall c :: 0 <= c < |temp1| ==> temp1[c] == 0
    ensures Sweeping(f.g, m, i, kernel, ws, ws, temp1, ty, 0)
  {
  }

  lemma SweepFlagged(g: Grammar, m: Automaton, i: int, kernel: seq<Item>, ws: seq<Wset>, cur: seq<Wset>,
                     temp1: seq<int>, ty: seq<int>, p: nat)
    requires Sweeping(g, m, i, kernel, ws, cur, temp1, ty, p) && p < |ws| && cur[p].flag != 0
    ensures Sweeping(g, m, i, kernel, ws, cur, temp1, ty, p + 1)
    ensures ws[p].pitem.first > ENDTOK && SeenSymbol(ws, ws[p].pitem.first, p)
  {
    hide RowFilled, Trans;
    assert SeenBefore(ws, p, p);
    var q :| 0 <= q < p && ws[q].pitem.first == ws[p].pitem.first;
    RowFilledNext(g, m, i, ws, temp1, p, q);
    forall k | 0 <= k < |ws| && cur[k].flag != 0
      ensures SeenBefore(ws, k, p + 1)
    {
      assert SeenBefore(ws, k, p);
    }
  }

  lemma RowFilledNext(g: Grammar, m: Automaton, i: int, ws: seq<Wset>, temp1: seq<int>, p: nat, q: nat)
    requires RowFilled(g, m, i, ws, temp1, p) && p < |ws|
    requires ws[p].pitem.first <= NTBASE || (q < p && ws[q].pitem.first == ws[p].pitem.first)
    ensures RowFilled(g, m, i, ws, temp1, p + 1)
  {
  }

  lemma SweepLow(g: Grammar, m: Automaton, i: int, kernel: seq<Item>, ws: seq<Wset>, cur: seq<Wset>, cur': seq<Wset>,
                 temp1: seq<int>, ty: seq<int>, ty': seq<int>, p: nat)
    requires Sweeping(g, m, i, kernel, ws, cur, temp1, ty, p) && p < |ws| && ws[p].pitem.first <= ENDTOK
    requires cur' == cur[p := cur[p].(flag := 1)]
    requires ty' == if |kernel| <= p then ty[i := MUSTLOOKAHEAD] else ty
    ensures Sweeping(g, m, i, kernel, ws, cur', temp1, ty', p + 1)
  {
    forall k | 0 <= k < |ws| && cur'[k].flag != 0
      ensures SeenBefore(ws, k, p + 1)
    {
      assert k != p ==> SeenBefore(ws, k, p);
    }
  }

  /** An entry not yet flagged is the first with its symbol. */
  lemma SweepFirst(g: Grammar, m: Automaton, i: int, kernel: seq<Item>, ws: seq<Wset>, cur: seq<Wset>, temp1: seq<int>,
                   ty: seq<int>, p: nat)
    requires Sweeping(g, m, i, kernel, ws, cur, temp1, ty, p) && p < |ws| && ws[p].pitem.first > ENDTOK
    requires cur[p].flag == 0
    ensures forall k :: 0 <= k < p ==> ws[k].pitem.first != ws[p].pitem.first
  {
  }

  lemma SweepGoto(g: Grammar, m: Automaton, m': Automaton, i: int, kernel: seq<Item>, ws: seq<Wset>, cur: seq<Wset>,
                  cur': seq<Wset>, temp1: seq<int>, temp1': seq<int>, ty: seq<int>, ty': seq<int>, p: nat, j: int)
    requires Sweeping(g, m, i, kernel, ws, cur, temp1, ty, p) && p < |ws| && ws[p].pitem.first > ENDTOK
    requires Extends(m, m') && Trans(g, m', i, ws[p].pitem.first, j)
    requires Flagged(cur, cur', ws[p].pitem.first, |ws|)
    requires ws[p].pitem.first < NTBASE || NTBASE < ws[p].pitem.first <= NTBASE + g.nnonter
    requires temp1' == if ws[p].pitem.first < NTBASE then temp1 else temp1[ws[p].pitem.first - NTBASE := j]
    requires ty' == ty || (0 <= j < |ty| && ty' == ty[j := MUSTDO])
    ensures Sweeping(g, m', i, kernel, ws, cur', temp1', ty', p + 1)
  {
    hide Trans, RowFilled, Extends;
    var c := ws[p].pitem.first;
    RowFilledGoto(g, m, m', i, ws, temp1, temp1', p, j);
    forall q | 0 <= q < p + 1 && ws[q].pitem.first > ENDTOK
      ensures exists j :: Trans(g, m', i, ws[q].pitem.first, j)
    {
      if q < p {
        var h :| Trans(g, m, i, ws[q].pitem.first, h);
        TransExtends(g, m, m', i, ws[q].pitem.first, h);
      }
    }
    forall k | 0 <= k < |ws| && cur'[k].flag != 0
      ensures SeenBefore(ws, k, p + 1)
    {
      assert ws[k].pitem.first != c ==> SeenBefore(ws, k, p);
    }
  }

  lemma RowFilledGoto(g: Grammar, m: Automaton, m': Automaton, i: int, ws: seq<Wset>, temp1: seq<int>, temp1': seq<int>,
                      p: nat, j: int)
    requires RowFilled(g, m, i, ws, temp1, p) && p < |ws|
    requires Extends(m, m') && Trans(g, m', i, ws[p].pitem.first, j)
    requires ws[p].pitem.first < NTBASE || NTBASE < ws[p].pitem.first <= NTBASE + g.nnonter
    requires temp1' == if ws[p].pitem.first < NTBASE then temp1 else temp1[ws[p].pitem.first - NTBASE := j]
    ensures RowFilled(g, m', i, ws, temp1', p + 1)
  {
    assert j > 0;
    forall x: nat | 1 <= x <= g.nnonter && temp1'[x] != 0
      ensures Trans(g, m', i, NTBASE + x, temp1'[x])
    {
      if temp1'[x] == temp1[x] {
        TransExtends(g, m, m', i, NTBASE + x, temp1[x]);
      }
    }
  }

  /** All entries swept: the gotos of state i are in, and temp1 is their row. */
  lemma SweepDone(f: Facts, m: Automaton, i: int, kernel: seq<Item>, ws: seq<Wset>, cur: seq<Wset>, temp1: seq<int>,
                  ty: seq<int>)
    requires Worked(f, m, i, kernel, ws) && Sweeping(f.g, m, i, kernel, ws, cur, temp1, ty, |ws|)
    ensures GotosIn(f.g, m, i) && RowOf(f.g, m, i, temp1)
    ensures 0 <= i < |m.kernels| && (Quiet(ty[i]) ==> NoEmpties(f.g, m.kernels[i]))
  {
    WorkedBounds(f, m, i, kernel, ws);
    hide Worked, FlagsSwept, GotosTaken, GotosIn, RowFilled, RowOf, NoEmpties, EmptiesSeen;
    GotosDone(f, m, i, kernel, ws);
    RowDone(f, m, i, kernel, ws, temp1);
    if Quiet(ty[i]) {
      EmptiesDone(f, m, i, kernel, ws, ty[i]);
    }
  }

  lemma GotosDone(f: Facts, m: Automaton, i: int, kernel: seq<Item>, ws: seq<Wset>)
    requires Worked(f, m, i, kernel, ws) && GotosTaken(f.g, m, i, ws, |ws|)
    ensures GotosIn(f.g, m, i)
  {
    hide Worked, Trans, Expects;
    forall x | x > ENDTOK && Expects(f.g, m, i, x)
      ensures exists j :: Trans(f.g, m, i, x, j)
    {
      var q := EntryFor(f, m, i, kernel, ws, x);
    }
  }

  lemma RowDone(f: Facts, m: Automaton, i: int, kernel: seq<Item>, ws: seq<Wset>, temp1: seq<int>)
    requires Worked(f, m, i, kernel, ws) && RowFilled(f.g, m, i, ws, temp1, |ws|)
    ensures RowOf(f.g, m, i, temp1)
  {
    hide Worked, Trans, Expects;
    forall c: nat | 1 <= c <= f.g.nnonter
      ensures RowCell(f.g, m, i, c, temp1[c])
    {
      if Expects(f.g, m, i, NTBASE + c) {
        var q := EntryFor(f, m, i, kernel, ws, NTBASE + c);
      } else if temp1[c] != 0 {
        TransExpects(f.g, m, i, NTBASE + c, temp1[c]);
      }
    }
  }

  lemma EmptiesDone(f: Facts, m: Automaton, i: int, kernel: seq<Item>, ws: seq<Wset>, ty: int)
    requires Worked(f, m, i, kernel, ws) && EmptiesSeen(kernel, ws, ty, |ws|) && Quiet(ty)
    ensures 0 <= i < |m.kernels| && NoEmpties(f.g, m.kernels[i])
  {
    WorkedBounds(f, m, i, kernel, ws);
    hide Worked, InClosure;
    forall it | InClosure(f.g, m.kernels[i], it) && ValidItem(f.g, it) && it !in m.kernels[i]
      ensures Next(f.g, it) > ENDTOK
    {
      NotKernelEntry(f, m, i, kernel, ws, it);
    }
  }

  lemma WorkedBounds(f: Facts, m: Automaton, i: int, kernel: seq<Item>, ws: seq<Wset>)
    requires Worked(f, m, i, kernel, ws)
    ensures 0 <= i < |m.kernels|
  {
  }

  lemma EntryFor(f: Facts, m: Automaton, i: int, kernel: seq<Item>, ws: seq<Wset>, x: int) returns (q: nat)
    requires Worked(f, m, i, kernel, ws) && Expects(f.g, m, i, x)
    ensures q < |ws| && ws[q].pitem.first == x
  {
    var it :| InClosure(f.g, m.kernels[i], it) && ValidItem(f.g, it) && Next(f.g, it) == x;
    ClosureItems(f, false, kernel, ws, it);
    var k :| 0 <= k < |ws| && ItemOf(ws[k].pitem) == it;
    assert PitemOk(f.g, ws[k].pitem);
    PitemShape(f.g, ws[k].pitem);
    q := k;
  }

  lemma NotKernelEntry(f: Facts, m: Automaton, i: int, kernel: seq<Item>, ws: seq<Wset>, it: Lr0)
    requires Worked(f, m, i, kernel, ws)
    requires InClosure(f.g, m.kernels[i], it) && ValidItem(f.g, it) && it !in m.kernels[i]
    ensures exists q :: |kernel| <= q < |ws| && ws[q].pitem.first == Next(f.g, it)
  {
    ClosureItems(f, false, kernel, ws, it);
    var k :| 0 <= k < |ws| && ItemOf(ws[k].pitem) == it;
    assert PitemOk(f.g, ws[k].pitem);
    PitemShape(f.g, ws[k].pitem);
    forall x | 0 <= x < |kernel|
      ensures ItemOf(ws[x].pitem) in KernelSet(kernel)
    {
      assert ItemOf(kernel[x].pitem) in KernelSet(kernel);
    }
  }

  /** v is the goto of state i on nonterminal c, 0 if it has none. */
  ghost predicate RowCell(g: Grammar, m: Automaton, i: int, c: nat, v: int) {
    if Expects(g, m, i, NTBASE + c) then Trans(g, m, i, NTBASE + c, v) else v == 0
  }

  /** temp1 holds the gotos of state i on nonterminals, and nothing else. */
  ghost predicate RowOf(g: Grammar, m: Automaton, i: int, temp1: seq<int>) {
    |temp1| == g.nnonter + 1 && forall c: nat :: 1 <= c <= g.nnonter ==> RowCell(g, m, i, c, temp1[c])
  }

  /** Other states' types have only been set to MUSTDO, and those of new states are. */
  ghost predicate TypesKept(i: int, n: int, ty: seq<int>, n': int, ty': seq<int>) {
    && |ty| == |ty'| && n <= n' <= |ty|
    && forall k :: 0 <= k < n' && k != i ==> ty'[k] == MUSTDO || (k < n && ty'[k] == ty[k])
  }

  lemma TypesTwice(i: int, n: int, ty: seq<int>, n': int, ty': seq<int>, n2: int, ty2: seq<int>)
    requires TypesKept(i, n, ty, n', ty') && (TypesKept(i, n', ty', n2, ty2) || TypesKept(-1, n', ty', n2, ty2))
    ensures TypesKept(i, n, ty, n2, ty2)
  {
  }

  lemma {:induction false} KernelCount(kern: seq<Item>)
    requires forall j, k :: 0 <= j < k < |kern| ==> ItemOf(kern[j].pitem) != ItemOf(kern[k].pitem)
    ensures |KernelSet(kern)| == |kern|
  {
    if kern == [] {
      assert KernelSet(kern) == {};
    } else {
      var n := |kern| - 1;
      KernelCount(kern[..n]);
      assert KernelSet(kern) == KernelSet(kern[..n]) + {ItemOf(kern[n].pitem)};
      assert ItemOf(kern[n].pitem) !in KernelSet(kern[..n]);
    }
  }

  lemma KernelSize(g: Grammar, sm: seq<Item>, ps: seq<int>, n: int, i: int, kernel: seq<Item>, kernels: seq<set<Lr0>>)
    requires LayoutOk(sm, ps, n) && 0 <= i < n == |kernels| && KernelsMatch(g, sm, ps, kernels)
    requires KernelMatches(g, kernel, kernels[i])
    ensures |ps| == NSTATES + 2 && ps[i + 1] - ps[i] == |kernel|
  {
    MatchesAt(g, sm, ps, kernels, i);
    KernelCount(kernel);
    KernelCount(KernAt(sm, ps, i));
    LaidAt(sm, ps, n, i);
  }

  lemma KeptWithout(g: Grammar, m: Automaton, ty: seq<int>, ty': seq<int>, but: int, i: int)
    requires GotosKept(g, m, ty, but) && (but == i || but == -1) && 0 <= i < |ty| && |ty'| == |ty|
    requires forall k :: 0 <= k < |ty| && k != i ==> ty'[k] == ty[k]
    ensures GotosKept(g, m, ty', i)
  {
    assert Completed(g, m, ty', i);
    assert EmptiesMarked(g, m, ty', i);
  }

  // ------------------------------------------------------------------ the packed gotos

  ghost predicate GotoStored(g: Grammar, m: Automaton, mem: seq<int>, k: int, i: int, c: nat) {
    Expects(g, m, i, NTBASE + c) ==> 0 <= k + c < |mem| && Trans(g, m, i, NTBASE + c, mem[k + c])
  }

  /** Every goto of state i on a nonterminal can be read from mem, at go[i]. */
  ghost predicate PackedState(g: Grammar, m: Automaton, mem: seq<int>, go: seq<int>, i: int)
    requires 0 <= i < |go|
  {
    forall c: nat :: 1 <= c <= g.nnonter ==> GotoStored(g, m, mem, go[i], i, c)
  }

  /** An action table without entries. */
  ghost predicate Blank(mem: seq<int>) {
    |mem| == ACTSIZE && forall q :: 0 <= q < |mem| ==> mem[q] == 0
  }

  /** The goto row of state n - 1 goes first fit from was into mem, to be read at go[n - 1]. */
  ghost predicate RowGoes(g: Grammar, m: Automaton, n: nat, row: seq<int>, was: seq<int>, go: seq<int>, mem: seq<int>)
    requires 0 < n <= |go|
  {
    RowOf(g, m, n - 1, row) && FirstFit(was, row[1..], go[n - 1] + 1, mem)
  }

  /** mem is what first fit makes of the goto rows of the states below n, one after the other,
      and go says where they are. */
  ghost predicate PackedRows(g: Grammar, m: Automaton, mem: seq<int>, go: seq<int>, n: nat)
    decreases n
  {
    && n <= |go|
    && if n == 0 then Blank(mem)
       else exists was, row :: PackedRows(g, m, was, go, n - 1) && RowGoes(g, m, n, row, was, go, mem)
  }

  /** The gotos of the states below n are in, and packed. */
  ghost predicate FilledUpTo(g: Grammar, m: Automaton, mem: seq<int>, go: seq<int>, n: int) {
    && 0 <= n <= |go| == NSTATES && PackedRows(g, m, mem, go, n)
    && forall i :: 0 <= i < n ==> GotosIn(g, m, i) && PackedState(g, m, mem, go, i)
  }

  lemma FilledGotos(g: Grammar, m: Automaton, mem: seq<int>, go: seq<int>, n: int, i: int)
    requires FilledUpTo(g, m, mem, go, n) && 0 <= i < n
    ensures GotosIn(g, m, i)
  {
  }

  lemma RowExtends(g: Grammar, m: Automaton, m': Automaton, i: int, row: seq<int>)
    requires RowOf(g, m, i, row) && Extends(m, m') && 0 <= i < |m.kernels|
    ensures RowOf(g, m', i, row)
  {
    hide Trans;
    forall c: nat | 1 <= c <= g.nnonter
      ensures RowCell(g, m', i, c, row[c])
    {
      assert RowCell(g, m, i, c, row[c]);
      assert Expects(g, m', i, NTBASE + c) <==> Expects(g, m, i, NTBASE + c);
      if Expects(g, m, i, NTBASE + c) {
        TransExtends(g, m, m', i, NTBASE + c, row[c]);
      }
    }
  }

  lemma {:induction false} RowsExtend(g: Grammar, m: Automaton, m': Automaton, mem: seq<int>, go: seq<int>, n: nat)
    requires PackedRows(g, m, mem, go, n) && n <= |m.kernels| && Extends(m, m')
    ensures PackedRows(g, m', mem, go, n)
    decreases n
  {
    hide RowOf, FirstFit;
    if n > 0 {
      var was, row :| PackedRows(g, m, was, go, n - 1) && RowGoes(g, m, n, row, was, go, mem);
      RowsExtend(g, m, m', was, go, n - 1);
      RowExtends(g, m, m', n - 1, row);
      assert RowGoes(g, m', n, row, was, go, mem);
    }
  }

  lemma {:induction false} RowsFrame(g: Grammar, m: Automaton, mem: seq<int>, go: seq<int>, go': seq<int>, n: nat)
    requires PackedRows(g, m, mem, go, n) && |go'| == |go| && forall i :: 0 <= i < n ==> go'[i] == go[i]
    ensures PackedRows(g, m, mem, go', n)
    decreases n
  {
    hide RowOf, FirstFit;
    if n > 0 {
      var was, row :| PackedRows(g, m, was, go, n - 1) && RowGoes(g, m, n, row, was, go, mem);
      RowsFrame(g, m, was, go, go', n - 1);
      assert RowGoes(g, m, n, row, was, go', mem);
    }
  }

  lemma RowUnique(g: Grammar, m: Automaton, i: int, row: seq<int>, row': seq<int>)
    requires DistinctKernels(m) && RowOf(g, m, i, row) && RowOf(g, m, i, row')
    ensures |row| == |row'| == g.nnonter + 1 && row[1..] == row'[1..]
  {
    hide Trans, Expects;
    forall c: nat | 1 <= c <= g.nnonter
      ensures row[c] == row'[c]
    {
      assert RowCell(g, m, i, c, row[c]) && RowCell(g, m, i, c, row'[c]);
      if Expects(g, m, i, NTBASE + c) {
        TransUnique(g, m, i, NTBASE + c, row[c], row'[c]);
      }
    }
  }

  /** The automaton decides what the table holds and where the rows are. */
  lemma {:induction false} PackedUnique(g: Grammar, m: Automaton, mem: seq<int>, go: seq<int>, mem': seq<int>,
                                        go': seq<int>, n: nat)
    requires DistinctKernels(m) && PackedRows(g, m, mem, go, n) && PackedRows(g, m, mem', go', n)
    ensures mem == mem' && go[..n] == go'[..n]
    decreases n
  {
    hide RowOf, FirstFit, DistinctKernels;
    if n > 0 {
      var was, row :| PackedRows(g, m, was, go, n - 1) && RowGoes(g, m, n, row, was, go, mem);
      var was', row' :| PackedRows(g, m, was', go', n - 1) && RowGoes(g, m, n, row', was', go', mem');
      PackedUnique(g, m, was, go, was', go', n - 1);
      RowUnique(g, m, n - 1, row, row');
      FirstFitUnique(was, row[1..], go[n - 1] + 1, mem, go'[n - 1] + 1, mem');
    }
  }

  /** The rows of n states take up no more than n times the number of nonterminals. */
  lemma {:induction false} PackedBound(g: Grammar, m: Automaton, mem: seq<int>, go: seq<int>, n: nat)
    requires PackedRows(g, m, mem, go, n)
    ensures |mem| == ACTSIZE && forall q :: n * g.nnonter <= q < |mem| ==> mem[q] == 0
    decreases n
  {
    hide FirstFit;
    if n > 0 {
      var was, row :| PackedRows(g, m, was, go, n - 1) && RowGoes(g, m, n, row, was, go, mem);
      PackedBound(g, m, was, go, n - 1);
      FirstFitBound(was, row[1..], go[n - 1] + 1, mem, (n - 1) * g.nnonter);
      assert n * g.nnonter == (n - 1) * g.nnonter + g.nnonter;
      FirstFitSize(was, row[1..], go[n - 1] + 1, mem);
    }
  }

  lemma FilledExtends(g: Grammar, m: Automaton, m': Automaton, mem: seq<int>, go: seq<int>, n: int)
    requires FilledUpTo(g, m, mem, go, n) && n <= |m.kernels| && Extends(m, m')
    ensures FilledUpTo(g, m', mem, go, n)
  {
    hide PackedRows, GotosIn, PackedState;
    RowsExtend(g, m, m', mem, go, n);
    forall i | 0 <= i < n
      ensures GotosIn(g, m', i) && PackedState(g, m', mem, go, i)
    {
      GotosInExtends(g, m, m', i);
      PackedExtends(g, m, m', mem, go, i);
    }
  }

  lemma PackedExtends(g: Grammar, m: Automaton, m': Automaton, mem: seq<int>, go: seq<int>, i: int)
    requires 0 <= i < |go| && i < |m.kernels| && PackedState(g, m, mem, go, i) && Extends(m, m')
    ensures PackedState(g, m', mem, go, i)
  {
    forall c: nat | 1 <= c <= g.nnonter
      ensures GotoStored(g, m', mem, go[i], i, c)
    {
      assert GotoStored(g, m, mem, go[i], i, c);
      if Expects(g, m', i, NTBASE + c) {
        assert Expects(g, m, i, NTBASE + c);
        TransExtends(g, m, m', i, NTBASE + c, mem[go[i] + c]);
      }
    }
  }

  lemma PackedKeeps(g: Grammar, m: Automaton, mem: seq<int>, mem': seq<int>, go: seq<int>, go': seq<int>, i: int)
    requires 0 <= i < |go| == |go'| && go'[i] == go[i] && PackedState(g, m, mem, go, i) && Keeps(mem, mem')
    ensures PackedState(g, m, mem', go', i)
  {
    forall c: nat | 1 <= c <= g.nnonter
      ensures GotoStored(g, m, mem', go'[i], i, c)
    {
      assert GotoStored(g, m, mem, go[i], i, c);
    }
  }

  /** apack has stored temp1[1..] at k, so state i can be read at k - 1. */
  lemma RowPacked(g: Grammar, m: Automaton, mem: seq<int>, go: seq<int>, i: int, temp1: seq<int>, k: int)
    requires RowOf(g, m, i, temp1) && Packed(mem, temp1[1..], k) && 0 <= i < |go| && go[i] == k - 1
    ensures PackedState(g, m, mem, go, i)
  {
    forall c: nat | 1 <= c <= g.nnonter
      ensures GotoStored(g, m, mem, go[i], i, c)
    {
      assert temp1[1..][c - 1] == temp1[c];
      assert k + (c - 1) == go[i] + c;
      assert RowCell(g, m, i, c, temp1[c]);
    }
  }

  lemma FilledNext(g: Grammar, m: Automaton, was: seq<int>, mem: seq<int>, go: seq<int>, i: int, temp1: seq<int>,
                   k: int)
    requires FilledUpTo(g, m, was, go, i) && 0 <= i < |go| && GotosIn(g, m, i) && RowOf(g, m, i, temp1)
    requires Packed(mem, temp1[1..], k) && Keeps(was, mem) && FirstFit(was, temp1[1..], k, mem)
    ensures FilledUpTo(g, m, mem, go[i := k - 1], i + 1)
  {
    hide RowOf, Packed, Keeps, FirstFit, GotosIn, PackedState;
    var go' := go[i := k - 1];
    RowsFrame(g, m, was, go, go', i);
    assert RowGoes(g, m, i + 1, temp1, was, go', mem);
    RowPacked(g, m, mem, go', i, temp1, k);
    forall h | 0 <= h < i
      ensures PackedState(g, m, mem, go', h)
    {
      PackedKeeps(g, m, was, mem, go, go', h);
    }
  }

  lemma HavePredecessors(g: Grammar, m: Automaton, ty: seq<int>, but: int)
    requires GotosKept(g, m, ty, but)
    ensures HasPredecessors(g, m)
  {
  }

  lemma FilledIsCollection(g: Grammar, m: Automaton, mem: seq<int>, go: seq<int>)
    requires FilledUpTo(g, m, mem, go, |m.kernels|) && Apart(g, m) && HasPredecessors(g, m)
    ensures IsCollection(g, m)
  {
    forall i, x | Expects(g, m, i, x) && x > ENDTOK
      ensures exists j :: Trans(g, m, i, x, j)
    {
      assert GotosIn(g, m, i);
    }
  }

  lemma KernelOfState(sm: seq<Item>, ps: seq<int>, i: int)
    requires 0 <= i && i + 1 < |ps| && 0 <= ps[i] <= ps[i + 1] <= |sm|
    ensures KernAt(sm, ps, i) == sm[ps[i]..ps[i + 1]]
  {
  }

  /** State i is taken up: its items are a kernel that closure accepts. */
  lemma Closing(f: Facts, m: Automaton, ty: seq<int>, sm: seq<Item>, ps: seq<int>, i: int, kernel: seq<Item>)
    requires KernelsMatch(f.g, sm, ps, m.kernels) && 0 <= i < |m.kernels| && kernel == KernAt(sm, ps, i) && FactsOk(f)
    requires GotosKept(f.g, m, ty, -1) && i < |ty|
    ensures Sized(f) && KernelShape(f.g, kernel) && GotosKept(f.g, m, ty[i := DONE], i)
  {
    FactsSized(f);
    MatchesAt(f.g, sm, ps, m.kernels, i);
    KeptWithout(f.g, m, ty, ty[i := DONE], -1, i);
  }

  lemma Closed(f: Facts, m: Automaton, ty: seq<int>, sm: seq<Item>, ps: seq<int>, i: int, kernel: seq<Item>,
               ws: seq<Wset>)
    requires KernelsMatch(f.g, sm, ps, m.kernels) && 0 <= i < |m.kernels| && kernel == KernAt(sm, ps, i) && FactsOk(f)
    requires Apart(f.g, m) && GotosKept(f.g, m, ty, -1) && AllLooksJust(f.g, m, sm, ps)
    requires ClosureDone(f, false, kernel, ws)
    ensures Worked(f, m, i, kernel, ws)
  {
    MatchesAt(f.g, sm, ps, m.kernels, i);
    assert LooksJust(f.g, m, i, kernel);
    ClosureJust(f, m, i, kernel, ws);
    assert |kernel| <= |ws|;
  }

  /** State i has a goto on c, to a state that is not in. */
  ghost predicate MissingGoto(g: Grammar, m: Automaton, i: int, c: int, target: set<Lr0>) {
    && 0 <= i < |m.kernels| && c > ENDTOK && IsGoto(g, m.kernels[i], c, target)
    && forall j :: 0 <= j < |m.kernels| ==> m.kernels[j] != target
  }

  /** The states are distinct and reached, another one is reached, and there is no room for it. */
  ghost predicate TooMany(g: Grammar, m: Automaton) {
    && Apart(g, m) && HasPredecessors(g, m) && |m.kernels| == |m.access| && |m.kernels| + 1 >= NSTATES
    && exists i, c, target :: MissingGoto(g, m, i, c, target)
  }

  lemma IsFull(g: Grammar, m: Automaton, ty: seq<int>, but: int, i: int, c: int, target: set<Lr0>)
    requires Apart(g, m) && GotosKept(g, m, ty, but) && |m.kernels| == |m.access| && |m.kernels| + 1 >= NSTATES
    requires 0 <= i < |m.kernels| && c > ENDTOK && IsGoto(g, m.kernels[i], c, target)
    requires forall j :: 0 < j < |m.kernels| ==> m.kernels[j] != target
    ensures TooMany(g, m)
  {
    var it :| it in target;
    assert it.dot > 0 && StartItem in m.kernels[0];
    assert MissingGoto(g, m, i, c, target);
  }

  /** The rows of the states below i are packed; that of state i fits nowhere. */
  ghost predicate RowStuck(g: Grammar, m: Automaton, mem: seq<int>, go: seq<int>, i: int, row: seq<int>) {
    && Apart(g, m) && HasPredecessors(g, m) && 0 <= i < |m.kernels| && GotosIn(g, m, i) && RowOf(g, m, i, row)
    && FilledUpTo(g, m, mem, go, i) && forall j :: !Fits(mem, row[1..], j)
  }

  /** The first goto of all is that of state 0 on the start symbol. */
  lemma StartStep(f: Facts, m: Automaton, m': Automaton, i: int, kernel: seq<Item>, ws: seq<Wset>, cur: seq<Wset>,
                  temp1: seq<int>, ty: seq<int>, p: nat)
    requires Worked(f, m', i, kernel, ws) && Sweeping(f.g, m', i, kernel, ws, cur, temp1, ty, p + 1) && p < |ws|
    requires Extends(m, m') && |m'.kernels| <= |m.kernels| + 1 && 0 <= i < |m.kernels| && Apart(f.g, m)
    requires WellFormed(f.g) && (|m.kernels| > 1 ==> Trans(f.g, m, 0, Start(f.g), 1)) && (p > 0 ==> |m.kernels| > 1)
    ensures Trans(f.g, m', 0, Start(f.g), 1) && |m'.kernels| > 1
  {
    if |m.kernels| > 1 {
      TransExtends(f.g, m, m', 0, Start(f.g), 1);
    } else {
      assert m'.kernels[0] == m.kernels[0] == {StartItem};
      hide Worked, Sweeping, Apart, WellFormed, Trans;
      FirstEntry(f, m', i, kernel, ws);
      var j := FirstTarget(f.g, m', kernel, ws, cur, temp1, ty, p);
    }
  }

  lemma FirstTarget(g: Grammar, m: Automaton, kernel: seq<Item>, ws: seq<Wset>, cur: seq<Wset>, temp1: seq<int>,
                    ty: seq<int>, p: nat) returns (j: int)
    requires Sweeping(g, m, 0, kernel, ws, cur, temp1, ty, p + 1) && |ws| > 0 && ws[0].pitem.first > ENDTOK
    requires |m.kernels| <= 2
    ensures Trans(g, m, 0, ws[0].pitem.first, 1) && |m.kernels| > 1
  {
    j :| Trans(g, m, 0, ws[0].pitem.first, j);
  }

  lemma FirstEntry(f: Facts, m: Automaton, i: int, kernel: seq<Item>, ws: seq<Wset>)
    requires Worked(f, m, i, kernel, ws) && 0 <= i < |m.kernels| && m.kernels[i] == {StartItem} && WellFormed(f.g)
    ensures |ws| > 0 && ws[0].pitem.first == Start(f.g)
  {
    assert ItemOf(kernel[0].pitem) in KernelSet(kernel);
    assert PitemOk(f.g, kernel[0].pitem);
    assert ws[0].pitem == kernel[0].pitem;
  }

  lemma ExtendsTwice(a: Automaton, b: Automaton, c: Automaton)
    requires Extends(a, b) && Extends(b, c)
    ensures Extends(a, c)
  {
  }

  lemma SweptLength(g: Grammar, m: Automaton, i: int, kernel: seq<Item>, ws: seq<Wset>, cur: seq<Wset>, temp1: seq<int>,
                    ty: seq<int>, p: nat)
    requires Sweeping(g, m, i, kernel, ws, cur, temp1, ty, p)
    ensures |cur| == |ws|
  {
  }

  lemma ExtendsSame(m: Automaton)
    requires |m.kernels| == |m.access|
    ensures Extends(m, m)
  {
  }

  lemma TodoLess(m: Automaton, ty: seq<int>, i: int, v: int)
    requires 0 <= i < |ty| && v != MUSTDO
    ensures Todo(m, ty[i := v]) <= Todo(m, ty)
    ensures ty[i] == MUSTDO && i < |m.kernels| ==> Todo(m, ty[i := v]) < Todo(m, ty)
  {
    assert ty[i] == MUSTDO && i < |m.kernels| ==> i in Todo(m, ty);
  }

  /** What the loop over p may assume about its entry. */
  lemma EntryShape(f: Facts, m: Automaton, i: int, kernel: seq<Item>, ws: seq<Wset>, cur: seq<Wset>, temp1: seq<int>,
                   ty: seq<int>, p: nat)
    requires Worked(f, m, i, kernel, ws) && Sweeping(f.g, m, i, kernel, ws, cur, temp1, ty, p) && p < |ws|
    ensures |cur| == |ws| && SameLooks(ws, cur) && cur[p].pitem == ws[p].pitem && |temp1| == f.g.nnonter + 1
    ensures KernelMatches(f.g, kernel, m.kernels[i])
    ensures ws[p].pitem.first > ENDTOK ==>
      IsToken(f.g, ws[p].pitem.first) || NTBASE < ws[p].pitem.first <= NTBASE + f.g.nnonter
  {
    if ws[p].pitem.first > ENDTOK {
      WorkedGoto(f, m, i, kernel, ws, ws[p].pitem.first, p);
    }
  }

  lemma HasGoto(f: Facts, m: Automaton, i: int, kernel: seq<Item>, ws: seq<Wset>, p: nat)
    requires Worked(f, m, i, kernel, ws) && GotosIn(f.g, m, i) && p < |ws| && ws[p].pitem.first > ENDTOK
    ensures exists h :: Trans(f.g, m, i, ws[p].pitem.first, h)
  {
    assert PitemOk(f.g, ws[p].pitem);
    PitemShape(f.g, ws[p].pitem);
    ClosureItems(f, false, kernel, ws, ItemOf(ws[p].pitem));
    assert HasItem(ws, ItemOf(ws[p].pitem));
    assert Expects(f.g, m, i, ws[p].pitem.first);
  }

  lemma KeptWith(g: Grammar, m: Automaton, ty: seq<int>, i: int)
    requires GotosKept(g, m, ty, i) && 0 <= i < |ty| && GotosIn(g, m, i)
    requires (Quiet(ty[i]) && i < |m.kernels| ==> NoEmpties(g, m.kernels[i]))
    ensures GotosKept(g, m, ty, -1)
  {
    assert Completed(g, m, ty, -1);
    assert EmptiesMarked(g, m, ty, -1);
  }

  /** A goto that was in already leads to the state that was there. */
  lemma SameTarget(g: Grammar, m: Automaton, m': Automaton, i: int, c: int, j: int)
    requires Apart(g, m') && Extends(m, m') && Trans(g, m', i, c, j) && exists h :: Trans(g, m, i, c, h)
    ensures j < |m.kernels|
  {
    var h :| Trans(g, m, i, c, h);
    TransExtends(g, m, m', i, c, h);
    TransUnique(g, m', i, c, j, h);
  }

  class Generator {
    const f: Facts
    const st: StateList
    const work: Workspace
    var temp1: seq<int>
    const amem: array<int>
    var memp: nat
    var indgo: seq<int>

    /** All is in order, except that the gotos of state but may be incomplete. */
    ghost predicate Ready(but: int)
      reads this, st
    {
      && st.f == f == work.f && FactsOk(f) && st.Valid() && amem.Length == ACTSIZE
      && GotosKept(f.g, st.auto, st.tystate, but)
      && AllLooksJust(f.g, st.auto, st.statemem, st.pstate)
    }

    ghost function Now(): Snap
      reads st
    {
      Snap(st.auto, st.statemem, st.pstate, st.tystate)
    }

    ghost function Rank_(): Rank
      reads this, st
    {
      Rank(st.nstate, Room(f.g, st.auto, st.statemem, st.pstate), Todo(st.auto, st.tystate))
    }

    constructor (f: Facts)
      requires FactsOk(f)
      ensures this.f == f && Ready(-1) && st.Kern(st.nstate) == [] && fresh(st) && fresh(work) && fresh(amem)
      ensures st.nstate == 1 && st.tystate[0] == MUSTDO && |indgo| == NSTATES && Initial(f.g, Now())
      ensures Blank(amem[..])
    {
      assert Sized(f) by {
        FactsSized(f);
      }
      var list := new StateList(f);
      var sets := new Workspace(f);
      this.f := f;
      st := list;
      work := sets;
      temp1 := [];
      amem := new int[ACTSIZE](_ => 0);
      memp := 0;
      indgo := seq(NSTATES, _ => 0);
      new;
      StartProgress(f.g, st.auto, st.tystate, st.statemem, st.pstate);
    }

    /** There are as many states as the tables can hold, all reached, all different. */
    ghost predicate Full()
      reads this, st
    {
      TooMany(f.g, st.auto)
    }

    lemma NowProper()
      requires Ready(-1)
      ensures Proper(f.g, Now())
    {
      hide Apart, KernelsMatch, HasPredecessor, AllLooksJust, Completed, EmptiesMarked;
    }

    /** One entry of the goto loop for c: if c is after its dot, it goes to the state being
        built and is flagged. */
    method Visit(q: nat, c: int)
      requires LayoutOk(st.statemem, st.pstate, st.nstate)
      requires q < |work.wsets| && Movable(work.wsets, c)
      modifies work, st`statemem, st`pstate
      ensures LayoutOk(st.statemem, st.pstate, st.nstate)
      ensures SameKerns(old(st.statemem), old(st.pstate), st.statemem, st.pstate, st.nstate)
      ensures st.Kern(st.nstate) == old(st.Kern(st.nstate)) + PickedAt(old(work.wsets)[q], c)
      ensures work.wsets == FlagAt(old(work.wsets), q, c)
    {
      hide FactsOk, LayoutOk, KernelsMatch, ChainsOk, Apart, GotosKept, AllLooksJust, Worked, Sized;
      var w := work.wsets[q];
      if c == w.pitem.first {
        st.PutItem(w.pitem, w.ws, false);
        work.wsets := work.wsets[q := w.(flag := 1)];
      }
    }

    /** The calls of putitem for one goto: the entries from p on with c after the dot. */
    method Collect(p: nat, c: int)
      requires LayoutOk(st.statemem, st.pstate, st.nstate) && st.Kern(st.nstate) == []
      requires p <= |work.wsets| && Movable(work.wsets, c)
      requires forall k :: 0 <= k < p ==> work.wsets[k].pitem.first != c
      modifies work, st`statemem, st`pstate
      ensures LayoutOk(st.statemem, st.pstate, st.nstate)
      ensures SameKerns(old(st.statemem), old(st.pstate), st.statemem, st.pstate, st.nstate)
      ensures st.Kern(st.nstate) == Picked(old(work.wsets), c, |old(work.wsets)|)
      ensures Flagged(old(work.wsets), work.wsets, c, |old(work.wsets)|)
    {
      hide FactsOk, LayoutOk, KernelsMatch, ChainsOk, Apart, GotosKept, AllLooksJust, Worked, Sized, KernAt, Picked,
        PickedAt;
      ghost var ws := work.wsets;
      PickedNone(ws, c, p);
      ghost var kern := st.Kern(st.nstate);
      for q := p to |work.wsets|
        invariant LayoutOk(st.statemem, st.pstate, st.nstate)
        invariant SameKerns(old(st.statemem), old(st.pstate), st.statemem, st.pstate, st.nstate)
        invariant kern == Picked(ws, c, q) && kern == st.Kern(st.nstate)
        invariant Flagged(ws, work.wsets, c, q)
      {
        FlaggedStep(ws, work.wsets, c, q);
        PickedUnfold(ws, c, q);
        Visit(q, c);
        kern := kern + PickedAt(ws[q], c);
      }
    }

    /** state, called for the goto of state i on c that has been collected. */
    method Enter(i: int, c: int, ghost kernel: seq<Item>, ghost ws: seq<Wset>) returns (ok: bool, j: int)
      requires Ready(i) && 0 <= i < st.nstate && c > ENDTOK && Worked(f, st.auto, i, kernel, ws)
      requires st.Kern(st.nstate) == Picked(ws, c, |ws|) && exists p :: 0 <= p < |ws| && ws[p].pitem.first == c
      modifies st
      ensures ok ==> Ready(i) && st.Kern(st.nstate) == []
      ensures ok ==> Extends(old(st.auto), st.auto) && Trans(f.g, st.auto, i, c, j) && Worked(f, st.auto, i, kernel, ws)
      ensures ok ==> NotAfter(old(Rank_()), Rank_())
      ensures ok ==> st.tystate == old(st.tystate) || st.tystate == old(st.tystate)[j := MUSTDO]
      ensures ok ==>
        TypesKept(-1, old(st.nstate), old(st.tystate), st.nstate, st.tystate) && st.nstate <= old(st.nstate) + 1
      ensures ok && (exists h :: Trans(f.g, old(st.auto), i, c, h)) ==> st.auto == old(st.auto)
      ensures ok ==> GotoStep(f.g, old(Now()), i, c, Picked(ws, c, |ws|), j, Now())
      ensures !ok ==> Full()
    {
      hide FactsOk, LayoutOk, KernelsMatch, ChainsOk, Apart, GotosKept, AllLooksJust, Worked, Sized, CoreShape,
        LooksBounded, EnteredBy, IsGoto, LooksTaken, OthersKept, RaisedIfGrew, SameKerns, KernAt, KernelSet, Room, Todo,
        Picked, TooMany;
      ghost var m, ty, sm, ps := st.auto, st.tystate, st.statemem, st.pstate;
      ghost var p :| 0 <= p < |ws| && ws[p].pitem.first == c;
      WorkedGoto(f, m, i, kernel, ws, c, p);
      ok, j := st.State(c, false);
      if !ok {
        assert forall j :: 0 < j < |m.kernels| ==> m.kernels[j] != KernelSet(Picked(ws, c, |ws|));
        IsFull(f.g, m, ty, i, i, c, KernelSet(Picked(ws, c, |ws|)));
        return;
      }
      WorkedLooks(f, m, st.auto, i, kernel, ws, c, j);
      if exists h :: Trans(f.g, m, i, c, h) {
        SameTarget(f.g, m, st.auto, i, c, j);
      }
      GotosAfterState(f.g, m, st.auto, ty, st.tystate, i, c, j);
      LooksAfterState(f.g, m, st.auto, sm, ps, st.statemem, st.pstate, j, Picked(ws, c, |ws|));
      RankAfterState(f.g, m, st.auto, ty, st.tystate, sm, ps, st.statemem, st.pstate, j, Picked(ws, c, |ws|));
    }

    /** One goto of state i: the items are collected, and state registers or finds j. */
    method TakeGoto(i: int, p: nat, c: int, ghost kernel: seq<Item>, ghost ws: seq<Wset>) returns (ok: bool, j: int)
      requires Ready(i) && st.Kern(st.nstate) == [] && 0 <= i < st.nstate && c > ENDTOK
      requires Worked(f, st.auto, i, kernel, ws) && SameLooks(ws, work.wsets)
      requires p < |ws| && ws[p].pitem.first == c && forall k :: 0 <= k < p ==> ws[k].pitem.first != c
      modifies work, st
      ensures ok ==> Ready(i) && st.Kern(st.nstate) == [] && Flagged(old(work.wsets), work.wsets, c, |ws|)
      ensures ok ==> Extends(old(st.auto), st.auto) && Trans(f.g, st.auto, i, c, j) && Worked(f, st.auto, i, kernel, ws)
      ensures ok ==> NotAfter(old(Rank_()), Rank_())
      ensures ok ==> st.tystate == old(st.tystate) || st.tystate == old(st.tystate)[j := MUSTDO]
      ensures ok ==>
        TypesKept(-1, old(st.nstate), old(st.tystate), st.nstate, st.tystate) && st.nstate <= old(st.nstate) + 1
      ensures ok && (exists h :: Trans(f.g, old(st.auto), i, c, h)) ==> st.auto == old(st.auto)
      ensures ok ==> GotoStep(f.g, old(Now()), i, c, Picked(ws, c, |ws|), j, Now())
      ensures !ok ==> Full()
    {
      hide FactsOk, LayoutOk, KernelsMatch, ChainsOk, Apart, GotosKept, AllLooksJust, Worked, Sized, Trans, Flagged,
        GotoStep;
      ghost var m, sm, ps, before := st.auto, st.statemem, st.pstate, Now();
      PickedSameLooks(ws, work.wsets, c, |ws|);
      MovableSame(f, m, i, kernel, ws, work.wsets, c, p);
      Collect(p, c);
      MatchesFrame(f.g, sm, ps, m.kernels, st.statemem, st.pstate);
      LooksFrame(f.g, m, sm, ps, st.statemem, st.pstate);
      SameKernsSameRoom(f.g, m, sm, ps, st.statemem, st.pstate);
      ghost var collected := Now();
      ok, j := Enter(i, c, kernel, ws);
      if ok {
        GotoFrom(f.g, before, collected, i, c, Picked(ws, c, |ws|), j, Now());
      }
    }

    /** The start symbol's goto from state 0 is state 1. */
    ghost predicate StartOk()
      reads this, st
    {
      WellFormed(f.g) && (|st.auto.kernels| > 1 ==> Trans(f.g, st.auto, 0, Start(f.g), 1))
    }

    /** The body of the loop over p. */
    method Take(i: int, p: nat, ghost kernel: seq<Item>, ghost ws: seq<Wset>) returns (ok: bool)
      requires Ready(i) && st.Kern(st.nstate) == [] && 0 <= i < st.nstate && Worked(f, st.auto, i, kernel, ws)
      requires p < |ws| && Sweeping(f.g, st.auto, i, kernel, ws, work.wsets, temp1, st.tystate, p)
      modifies work, st, `temp1
      ensures ok ==> Ready(i) && st.Kern(st.nstate) == [] && Worked(f, st.auto, i, kernel, ws) && i < st.nstate
      ensures ok ==> Sweeping(f.g, st.auto, i, kernel, ws, work.wsets, temp1, st.tystate, p + 1)
      ensures ok ==>
        Extends(old(st.auto), st.auto) && st.nstate <= old(st.nstate) + 1 && NotAfter(old(Rank_()), Rank_())
      ensures ok ==> TypesKept(i, old(st.nstate), old(st.tystate), st.nstate, st.tystate)
      ensures ok && GotosIn(f.g, old(st.auto), i) ==> st.auto == old(st.auto)
      ensures ok ==> EntryStep(f.g, i, |kernel|, ws, p, old(Now()), Now())
      ensures !ok ==> Full()
    {
      hide FactsOk, LayoutOk, KernelsMatch, ChainsOk, Apart, GotosKept, AllLooksJust, Worked, Sized, Trans, Sweeping,
        Flagged, GotosIn, Extends, KernelMatches, Room, Todo, GotoStep;
      ghost var m, ty, cur, row := st.auto, st.tystate, work.wsets, temp1;
      EntryShape(f, m, i, kernel, ws, cur, row, ty, p);
      ok := true;
      var pi := work.wsets[p];
      if pi.flag != 0 {
        SweepFlagged(f.g, m, i, kernel, ws, cur, row, ty, p);
        ExtendsSame(m);
        return;
      }
      var c := pi.pitem.first;
      if c <= 1 {
        work.wsets := work.wsets[p := pi.(flag := 1)];
        KernelSize(f.g, st.statemem, st.pstate, st.nstate, i, kernel, m.kernels);
        if st.pstate[i + 1] - st.pstate[i] <= p {
          st.tystate := st.tystate[i := MUSTLOOKAHEAD];
        }
        SweepLow(f.g, m, i, kernel, ws, cur, work.wsets, row, ty, st.tystate, p);
        KeptWithout(f.g, m, ty, st.tystate, i, i);
        TodoLess(m, ty, i, MUSTLOOKAHEAD);
        ExtendsSame(m);
        return;
      }
      SweepFirst(f.g, m, i, kernel, ws, cur, row, ty, p);
      var j;
      ok, j := TakeGoto(i, p, c, kernel, ws);
      if ok {
        if GotosIn(f.g, m, i) {
          HasGoto(f, m, i, kernel, ws, p);
        }
        if c >= NTBASE {
          temp1 := temp1[c - NTBASE := j];
        }
        SweepGoto(f.g, m, st.auto, i, kernel, ws, cur, work.wsets, row, temp1, ty, st.tystate, p, j);
      }
    }

    /** The body of the loop over i, but for apack: state i is closed and its gotos entered. */
    method TakeState(i: int) returns (ok: bool)
      requires Ready(-1) && st.Kern(st.nstate) == [] && 0 <= i < st.nstate && st.tystate[i] == MUSTDO && StartOk()
      modifies work, st, `temp1
      ensures ok ==> Ready(-1) && st.Kern(st.nstate) == [] && StartOk() && i < st.nstate && st.nstate > 1
      ensures ok ==> GotosIn(f.g, st.auto, i) && RowOf(f.g, st.auto, i, temp1)
      ensures ok ==> Extends(old(st.auto), st.auto) && Later(old(Rank_()), Rank_())
      ensures ok ==> TypesKept(i, old(st.nstate), old(st.tystate), st.nstate, st.tystate)
      ensures ok && GotosIn(f.g, old(st.auto), i) ==> st.auto == old(st.auto)
      ensures ok ==> Round(f, old(Now()), i, Now())
      ensures !ok ==> Full()
    {
      hide LayoutOk, KernelsMatch, ChainsOk, Apart, GotosKept, AllLooksJust, Worked, Sized, Trans, Sweeping, GotosIn,
        Extends, KernelMatches, Room, Todo, RowOf, KernAt, ClosureDone, Proper, Swept, EntryStep;
      ghost var m, ty, before := st.auto, st.tystate, Now();
      NowProper();
      st.tystate := st.tystate[i := DONE];
      temp1 := seq(f.g.nnonter + 1, _ => 0);
      LaidAt(st.statemem, st.pstate, st.nstate, i);
      KernelOfState(st.statemem, st.pstate, i);
      var kernel := st.statemem[st.pstate[i]..st.pstate[i + 1]];
      Closing(f, m, ty, st.statemem, st.pstate, i, kernel);
      TodoLess(m, ty, i, DONE);
      work.Closure(kernel, false);
      ghost var ws := work.wsets;
      Closed(f, m, ty, st.statemem, st.pstate, i, kernel, ws);
      SweepStart(f, m, i, kernel, ws, temp1, st.tystate);
      ExtendsSame(m);
      SweptNone(f.g, i, |kernel|, ws, Now());
      ok := true;
      for p := 0 to |work.wsets|
        invariant Ready(i) && st.Kern(st.nstate) == [] && i < st.nstate && Worked(f, st.auto, i, kernel, ws)
        invariant |work.wsets| == |ws|
        invariant Sweeping(f.g, st.auto, i, kernel, ws, work.wsets, temp1, st.tystate, p)
        invariant StartOk() && (p > 0 ==> st.nstate > 1)
        invariant Extends(m, st.auto) && Later(old(Rank_()), Rank_())
        invariant TypesKept(i, old(st.nstate), old(st.tystate), st.nstate, st.tystate)
        invariant GotosIn(f.g, m, i) ==> st.auto == m
        invariant Swept(f.g, i, |kernel|, ws, p, Begun(before, i), Now())
      {
        ghost var m1, rank, n, ty1, entry := st.auto, Rank_(), st.nstate, st.tystate, Now();
        ok := Take(i, p, kernel, ws);
        if !ok {
          return;
        }
        StartStep(f, m1, st.auto, i, kernel, ws, work.wsets, temp1, st.tystate, p);
        ExtendsTwice(m, m1, st.auto);
        LaterTwice(old(Rank_()), rank, Rank_());
        TypesTwice(i, old(st.nstate), old(st.tystate), n, ty1, st.nstate, st.tystate);
        SweptLength(f.g, st.auto, i, kernel, ws, work.wsets, temp1, st.tystate, p + 1);
        SweptNext(f.g, i, |kernel|, ws, p, Begun(before, i), entry, Now());
      }
      SweepDone(f, st.auto, i, kernel, ws, work.wsets, temp1, st.tystate);
      KeptWith(f.g, st.auto, st.tystate, i);
      assert RoundWith(f, before, i, ws, Now());
    }

    /** The collection is complete and the gotos can be read from amem. */
    ghost predicate Finished()
      reads this, st, amem
    {
      && Ready(-1) && st.Kern(st.nstate) == [] && StartOk() && st.nstate > 1
      && IsCollection(f.g, st.auto) && FilledUpTo(f.g, st.auto, amem[..], indgo, st.nstate)
      && forall k :: 0 <= k < st.nstate ==> st.tystate[k] != MUSTDO
    }

    lemma FinishedFacts()
      requires Finished()
      ensures st.f == work.f == f && FactsOk(f) && WellFormed(f.g) && Sized(f) && st.Valid()
      ensures IsCollection(f.g, st.auto)
      ensures |st.auto.kernels| == st.nstate && 1 < st.nstate < NSTATES == |st.tystate|
      ensures Trans(f.g, st.auto, 0, Start(f.g), 1)
    {
    }

    /** State i, as closure is given it. */
    lemma StateKernel(i: int)
      requires Finished() && 0 <= i < st.nstate
      ensures i < |st.auto.kernels| && i + 1 < |st.pstate| && 0 <= st.pstate[i] <= st.pstate[i + 1] <= |st.statemem|
      ensures st.Kern(i) == st.statemem[st.pstate[i]..st.pstate[i + 1]]
      ensures KernelMatches(f.g, st.Kern(i), st.auto.kernels[i]) && KernelShape(f.g, st.Kern(i))
    {
      LaidAt(st.statemem, st.pstate, st.nstate, i);
      KernelOfState(st.statemem, st.pstate, i);
      MatchesAt(f.g, st.statemem, st.pstate, st.auto.kernels, i);
    }

    /** What is known of the lookaheads of state i. */
    lemma StateLooks(i: int)
      requires Finished() && 0 <= i < st.nstate && i < |st.auto.kernels| && i < |st.tystate|
      ensures LooksJust(f.g, st.auto, i, st.Kern(i))
      ensures st.tystate[i] != MUSTLOOKAHEAD ==> NoEmpties(f.g, st.auto.kernels[i])
    {
      hide IsCollection, FilledUpTo, Justifies, NoEmpties;
    }

    /** What the packed gotos are for. */
    lemma StoredGoto(i: int, c: nat)
      requires Finished() && 0 <= i < st.nstate && 1 <= c <= f.g.nnonter && Expects(f.g, st.auto, i, NTBASE + c)
      ensures 0 <= i < |indgo| && 0 <= indgo[i] + c < amem.Length
      ensures Trans(f.g, st.auto, i, NTBASE + c, amem[indgo[i] + c])
    {
      hide GotosIn, Trans, IsCollection, Expects;
      assert PackedState(f.g, st.auto, amem[..], indgo, i);
      assert GotoStored(f.g, st.auto, amem[..], indgo[i], i, c);
    }

    /** What makes stagen give up: there are too many states, or the row of gotos at hand fits
        nowhere in the action table, as the rows before it have left it. */
    ghost predicate Overflow()
      reads this, st, amem
    {
      Full() || exists i :: RowStuck(f.g, st.auto, amem[..], indgo, i, temp1)
    }

    /** The body of the loop over i for a state that must be done; its gotos are packed when
        this is the first pass. */
    method DoState(i: int, first: bool) returns (ok: bool)
      requires Ready(-1) && st.Kern(st.nstate) == [] && 0 <= i < st.nstate && st.tystate[i] == MUSTDO && StartOk()
      requires FilledUpTo(f.g, st.auto, amem[..], indgo, if first then i else st.nstate)
      modifies work, st, `temp1, `indgo, `memp, amem
      ensures ok ==> Ready(-1) && st.Kern(st.nstate) == [] && StartOk() && i < st.nstate && st.nstate > 1
      ensures ok ==> FilledUpTo(f.g, st.auto, amem[..], indgo, if first then i + 1 else st.nstate)
      ensures ok ==>
        Later(old(Rank_()), Rank_()) && TypesKept(i, old(st.nstate), old(st.tystate), st.nstate, st.tystate)
      ensures ok && !first ==> st.nstate == old(st.nstate)
      ensures ok ==> Round(f, old(Now()), i, Now())
      ensures !ok ==> Overflow()
    {
      hide LayoutOk, KernelsMatch, ChainsOk, Apart, GotosKept, AllLooksJust, Sized, Trans, GotosIn, KernelMatches,
        KernAt, Round, Room, Todo, Packed, Keeps, OnlyAdds, NoFitBefore, AllZero, FactsOk, PackedState, PackedRows,
        FirstFit, HasPredecessors, RowCell;
      ghost var m, n, mem, go := st.auto, (if first then i else st.nstate), amem[..], indgo;
      if !first {
        FilledGotos(f.g, m, mem, go, n, i);
      }
      ok := TakeState(i);
      if !ok {
        return;
      }
      FilledExtends(f.g, m, st.auto, mem, go, n);
      if first {
        var k;
        ok, k, memp := Apack(temp1[1..], amem, memp);
        if !ok {
          HavePredecessors(f.g, st.auto, st.tystate, -1);
          assert RowStuck(f.g, st.auto, amem[..], indgo, i, temp1);
          return;
        }
        indgo := indgo[i := k - 1];
        FilledNext(f.g, st.auto, mem, amem[..], go, i, temp1, k);
      }
    }

    /** The state generation loop of stagen. It ends, either with the complete collection
        or (ok is false) with a table that overflows. */
    method Stagen() returns (ok: bool)
      requires Ready(-1) && st.Kern(st.nstate) == [] && st.nstate == 1 && Initial(f.g, Now()) && |indgo| == NSTATES
      requires Blank(amem[..])
      modifies work, st, `temp1, `indgo, `memp, amem
      ensures if ok then Finished() && Run(f, Now()) else Overflow()
    {
      hide Run, Round, LayoutOk, KernelsMatch, ChainsOk, Apart, GotosKept, AllLooksJust, Sized, Trans, GotosIn,
        KernelMatches, KernAt, Room, Todo, PackedState;
      assert WellFormed(f.g);
      RunStart(f, Now());
      var first, more := true, true;
      while more
        invariant Ready(-1) && st.Kern(st.nstate) == [] && StartOk() && (first ==> more) && Run(f, Now())
        invariant FilledUpTo(f.g, st.auto, amem[..], indgo, if first then 0 else st.nstate)
        invariant if first then st.nstate == 1 && st.tystate[0] == MUSTDO else st.nstate > 1
        invariant !more ==> forall k :: 0 <= k < st.nstate ==> st.tystate[k] != MUSTDO
        decreases NSTATES - st.nstate, Room(f.g, st.auto, st.statemem, st.pstate), Todo(st.auto, st.tystate), more
      {
        ghost var rank := Rank_();
        more := false;
        var i := 0;
        while i < st.nstate
          invariant 0 <= i <= st.nstate && Ready(-1) && st.Kern(st.nstate) == [] && StartOk() && Run(f, Now())
          invariant FilledUpTo(f.g, st.auto, amem[..], indgo, if first then i else st.nstate)
          invariant first && i == 0 ==> st.nstate == 1
          invariant !first || i > 0 ==> st.nstate > 1
          invariant first ==> (i > 0 ==> more) && forall k :: i <= k < st.nstate ==> st.tystate[k] == MUSTDO
          invariant !more ==> Rank_() == rank && forall k :: 0 <= k < i ==> st.tystate[k] != MUSTDO
          invariant more ==> Later(rank, Rank_())
          decreases NSTATES - i
        {
          if st.tystate[i] == MUSTDO {
            ghost var rank1, before := Rank_(), Now();
            ok := DoState(i, first);
            if !ok {
              return;
            }
            LaterTwice(rank, rank1, Rank_());
            RunStep(f, before, i, Now());
            more := true;
          }
          i := i + 1;
        }
        first := false;
      }
      ok := true;
      HavePredecessors(f.g, st.auto, st.tystate, -1);
      FilledIsCollection(f.g, st.auto, amem[..], indgo);
    }
  }

  lemma MovableSame(f: Facts, m: Automaton, i: int, kernel: seq<Item>, ws: seq<Wset>, ws': seq<Wset>, c: int, p: nat)
    requires Worked(f, m, i, kernel, ws) && c > ENDTOK && p < |ws| && ws[p].pitem.first == c && SameLooks(ws, ws')
    ensures Movable(ws', c)
  {
    WorkedGoto(f, m, i, kernel, ws, c, p);
  }

  lemma FactsSized(f: Facts)
    requires FactsOk(f)
    ensures Sized(f)
  {
    forall i, t: nat | 0 <= i < |f.first| && t in f.first[i]
      ensures t <= f.g.ntokens
    {
      assert t in f.first[i] <==> IsToken(f.g, t) && Firsts.Begins(f.g, NTBASE + i, t);
    }
  }

  lemma StartProgress(g: Grammar, m: Automaton, tystate: seq<int>, sm: seq<Item>, ps: seq<int>)
    requires m == Automaton([{StartItem}], [0]) && |tystate| > 0 && tystate[0] == MUSTDO
    requires |KernAt(sm, ps, 0)| == 1 && KernAt(sm, ps, 0)[0].look == {}
    ensures GotosKept(g, m, tystate, -1) && AllLooksJust(g, m, sm, ps)
  {
    hide Justifies, GotosIn, NoEmpties, HasPredecessor;
    assert AllLooksJust(g, m, sm, ps);
  }

  lemma RankAfterState(g: Grammar, m: Automaton, m': Automaton, ty: seq<int>, ty': seq<int>, sm: seq<Item>,
                       ps: seq<int>, sm': seq<Item>, ps': seq<int>, j: int, picked: seq<Item>)
    requires |m'.kernels| == |m.kernels| + 1 || (m' == m && 0 <= j < |m.kernels|)
    requires OthersKept(sm, ps, |m.kernels|, sm', ps', j) && LooksTaken(sm, ps, |m.kernels|, sm', ps', j, picked)
    requires RaisedIfGrew(g, m.kernels, sm, ps, sm', ps', ty, ty', j)
    ensures var a := Rank(|m.kernels|, Room(g, m, sm, ps), Todo(m, ty));
      var b := Rank(|m'.kernels|, Room(g, m', sm', ps'), Todo(m', ty'));
      NotAfter(a, b) && (ty' == ty || Later(a.(todo := {}), b))
  {
    if m' == m {
      if KernAt(sm', ps', j) == KernAt(sm, ps, j) {
        SameKernsSameRoom(g, m, sm, ps, sm', ps');
      } else {
        GrewLessRoom(g, m, sm, ps, sm', ps', j);
      }
    }
  }
}
