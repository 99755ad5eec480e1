/** What one round of stagen does to the states, as a relation between values, and the runs
    that such rounds make up (cmd/goyacc/yacc.go). */
module Rounds {
  import opened Grammars
  import opened Items
  import opened Lookaheads
  import opened WorkingSets
  import opened KernelStore
  import opened Collecting

  /** The automaton so far, the stored items with their lookaheads, and tystate. */
  datatype Snap = Snap(m: Automaton, sm: seq<Item>, ps: seq<int>, ty: seq<int>)

  ghost function Look(s: Snap, i: int, it: Lr0): set<nat> {
    KernLook(KernAt(s.sm, s.ps, i), it)
  }

  ghost predicate Proper(g: Grammar, s: Snap) {
    && |s.m.kernels| == |s.m.access| <= |s.ty| == NSTATES
    && Apart(g, s.m) && HasPredecessors(g, s.m) && KernelsMatch(g, s.sm, s.ps, s.m.kernels)
  }

  /** state has been called for the goto of state i on c, with the items picked, and returned j. */
  ghost predicate GotoStep(g: Grammar, s: Snap, i: int, c: int, picked: seq<Item>, j: int, s': Snap) {
    var n := |s.m.kernels|;
    && Extends(s.m, s'.m) && Trans(g, s'.m, i, c, j) && Apart(g, s'.m)
    && (s'.m == s.m || (j == n && |s'.m.kernels| == n + 1))
    && OthersKept(s.sm, s.ps, n, s'.sm, s'.ps, j) && LooksTaken(s.sm, s.ps, n, s'.sm, s'.ps, j, picked)
    && Marked(s.sm, s.ps, n, s'.sm, s'.ps, s.ty, s'.ty, j)
    && RaisedIfGrew(g, s.m.kernels, s.sm, s.ps, s'.sm, s'.ps, s.ty, s'.ty, j)
  }

  /** An entry before p has the symbol c after its dot. */
  ghost predicate SeenSymbol(ws: seq<Wset>, c: int, p: nat) {
    exists q :: 0 <= q < p && q < |ws| && ws[q].pitem.first == c
  }

  /** $end or a reduction after the dot: only noted, when closure has added the entry. */
  ghost predicate LowStep(s: Snap, i: int, base: nat, p: nat, s': Snap) {
    0 <= i < |s.ty| && s' == if base <= p then s.(ty := s.ty[i := MUSTLOOKAHEAD]) else s
  }

  /** What the loop over p does for entry p of the working sets. */
  ghost predicate EntryStep(g: Grammar, i: int, base: nat, ws: seq<Wset>, p: nat, s: Snap, s': Snap)
    requires p < |ws|
  {
    var c := ws[p].pitem.first;
    if c <= ENDTOK then LowStep(s, i, base, p, s')
    else if SeenSymbol(ws, c, p) then s' == s
    else exists j :: GotoStep(g, s, i, c, Picked(ws, c, |ws|), j, s')
  }

  /** The first p entries have been taken. */
  ghost predicate Swept(g: Grammar, i: int, base: nat, ws: seq<Wset>, p: nat, s: Snap, s': Snap)
    requires p <= |ws|
  {
    if p == 0 then s' == s
    else
      var q := p - 1;
      exists t :: Swept(g, i, base, ws, q, s, t) && EntryStep(g, i, base, ws, q, t, s')
  }

  ghost function Begun(s: Snap, i: int): Snap
    requires 0 <= i < |s.ty|
  {
    s.(ty := s.ty[i := DONE])
  }

  /** State i is waiting; its closure is ws, and all entries are taken. */
  ghost predicate RoundWith(f: Facts, s: Snap, i: int, ws: seq<Wset>, s': Snap) {
    var kernel := KernAt(s.sm, s.ps, i);
    && Proper(f.g, s) && 0 <= i < |s.m.kernels| && s.ty[i] == MUSTDO
    && ClosureDone(f, false, kernel, ws)
    && Swept(f.g, i, |kernel|, ws, |ws|, Begun(s, i), s')
  }

  ghost predicate Round(f: Facts, s: Snap, i: int, s': Snap) {
    exists ws :: RoundWith(f, s, i, ws, s')
  }

  ghost predicate Initial(g: Grammar, s: Snap) {
    && s.m == Automaton([{StartItem}], [0]) && (forall it :: Look(s, 0, it) == {})
    && |s.ty| == NSTATES && s.ty[0] == MUSTDO
  }

  ghost predicate RunIn(f: Facts, s: Snap, n: nat)
    decreases n
  {
    if n == 0 then Initial(f.g, s)
    else exists t, i :: RunIn(f, t, n - 1) && Round(f, t, i, s)
  }

  /** Some rounds, taking up waiting states in any order, lead from the start to s. */
  ghost predicate Run(f: Facts, s: Snap) {
    exists n: nat :: RunIn(f, s, n)
  }

  lemma RunStart(f: Facts, s: Snap)
    requires Initial(f.g, s)
    ensures Run(f, s)
  {
    assert RunIn(f, s, 0);
  }

  lemma RunStep(f: Facts, s: Snap, i: int, s': Snap)
    requires Run(f, s) && Round(f, s, i, s')
    ensures Run(f, s')
  {
    hide Round;
    var n: nat :| RunIn(f, s, n);
    assert RunIn(f, s', n + 1);
  }

  lemma SweptNone(g: Grammar, i: int, base: nat, ws: seq<Wset>, s: Snap)
    ensures Swept(g, i, base, ws, 0, s, s)
  {
  }

  lemma SweptNext(g: Grammar, i: int, base: nat, ws: seq<Wset>, p: nat, s: Snap, t: Snap, s': Snap)
    requires p < |ws| && Swept(g, i, base, ws, p, s, t) && EntryStep(g, i, base, ws, p, t, s')
    ensures Swept(g, i, base, ws, p + 1, s, s')
  {
    hide EntryStep;
  }

  /** A goto seen from a snapshot in which the finished states are the same. */
  lemma GotoFrom(g: Grammar, s: Snap, t: Snap, i: int, c: int, picked: seq<Item>, j: int, s': Snap)
    requires s.m == t.m && s.ty == t.ty && SameKerns(s.sm, s.ps, t.sm, t.ps, |s.m.kernels|)
    requires GotoStep(g, t, i, c, picked, j, s')
    ensures GotoStep(g, s, i, c, picked, j, s')
  {
    hide IsGoto, Extends, KernAt, Apart;
    var n := |s.m.kernels|;
    forall k | 0 <= k < n && k != j
      ensures KernAt(s'.sm, s'.ps, k) == KernAt(s.sm, s.ps, k)
    {
      assert KernAt(t.sm, t.ps, k) == KernAt(s.sm, s.ps, k);
    }
    assert j < n ==> KernAt(t.sm, t.ps, j) == KernAt(s.sm, s.ps, j);
  }
}
