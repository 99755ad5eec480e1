/** How large the tables of cmd/goyacc/yacc.go must be: the states of the LR(0) collection, counted
    without reference to any automaton, and the room that their goto rows take. */
module Capacity {
  import opened Grammars
  import opened Items
  import opened KernelStore
  import opened Collecting
  import opened Packing
  import opened Generating

  // ------------------------------------------------------------------ the states of a grammar

  ghost predicate OneGoto(g: Grammar, from: set<Lr0>, x: int, target: set<Lr0>) {
    x > ENDTOK && IsGoto(g, from, x, target)
  }

  /** n gotos lead from the start item to the kernel. */
  ghost predicate ReachedIn(g: Grammar, kernel: set<Lr0>, n: nat)
    decreases n
  {
    if n == 0 then kernel == {StartItem}
    else exists from, x :: OneGoto(g, from, x, kernel) && ReachedIn(g, from, n - 1)
  }

  ghost predicate IsState(g: Grammar, kernel: set<Lr0>) {
    exists n: nat :: ReachedIn(g, kernel, n)
  }

  ghost predicate AllStates(g: Grammar, kernels: set<set<Lr0>>) {
    forall kernel :: kernel in kernels ==> IsState(g, kernel)
  }

  /** The LR(0) collection of the grammar has no more than n states. */
  ghost predicate StatesAtMost(g: Grammar, n: int) {
    forall kernels :: AllStates(g, kernels) ==> |kernels| <= n
  }

  lemma StateStep(g: Grammar, from: set<Lr0>, x: int, kernel: set<Lr0>)
    requires IsState(g, from) && OneGoto(g, from, x, kernel)
    ensures IsState(g, kernel)
  {
    hide OneGoto;
    var n: nat :| ReachedIn(g, from, n);
    assert ReachedIn(g, kernel, n + 1);
  }

  /** Every state of an automaton that is being built is a state of the grammar. */
  lemma {:induction false} KernelReached(g: Grammar, m: Automaton, j: nat)
    requires KernelsOk(g, m) && HasPredecessors(g, m) && j < |m.kernels|
    ensures IsState(g, m.kernels[j])
    decreases j
  {
    hide IsGoto, IsState;
    if j == 0 {
      assert ReachedIn(g, m.kernels[0], 0);
      StartIsState(g);
    } else {
      assert HasPredecessor(g, m, j);
      var i :| 0 <= i < j && Trans(g, m, i, m.access[j], j);
      KernelReached(g, m, i);
      StateStep(g, m.kernels[i], m.access[j], m.kernels[j]);
    }
  }

  lemma StartIsState(g: Grammar)
    ensures IsState(g, {StartItem})
  {
    assert ReachedIn(g, {StartItem}, 0);
  }

  /** A complete collection has every state of the grammar. */
  lemma {:induction false} StateFound(g: Grammar, m: Automaton, kernel: set<Lr0>, n: nat) returns (j: nat)
    requires IsCollection(g, m) && ReachedIn(g, kernel, n)
    ensures j < |m.kernels| && m.kernels[j] == kernel
    decreases n
  {
    hide InClosure, DistinctKernels, HasPredecessor;
    if n == 0 {
      j := 0;
    } else {
      var from, x :| OneGoto(g, from, x, kernel) && ReachedIn(g, from, n - 1);
      var i := StateFound(g, m, from, n - 1);
      var it :| it in kernel;
      assert InGoto(g, from, x, it);
      assert Expects(g, m, i, x);
      j :| Trans(g, m, i, x, j);
      assert forall y :: y in m.kernels[j] <==> y in kernel;
    }
  }

  ghost function FirstKernels(kernels: seq<set<Lr0>>, n: nat): set<set<Lr0>>
    requires n <= |kernels|
  {
    set j | 0 <= j < n :: kernels[j]
  }

  ghost function KernelsOf(m: Automaton): set<set<Lr0>> {
    FirstKernels(m.kernels, |m.kernels|)
  }

  lemma {:induction false} CountDistinct(kernels: seq<set<Lr0>>, n: nat)
    requires n <= |kernels| && forall i, j :: 0 <= i < j < |kernels| ==> kernels[i] != kernels[j]
    ensures |FirstKernels(kernels, n)| == n
  {
    if n == 0 {
      assert FirstKernels(kernels, n) == {};
    } else {
      CountDistinct(kernels, n - 1);
      var before := FirstKernels(kernels, n - 1);
      assert FirstKernels(kernels, n) == before + {kernels[n - 1]};
      assert kernels[n - 1] !in before;
    }
  }

  lemma AutomatonStates(g: Grammar, m: Automaton)
    requires KernelsOk(g, m) && DistinctKernels(m) && HasPredecessors(g, m)
    ensures AllStates(g, KernelsOf(m)) && |KernelsOf(m)| == |m.kernels|
  {
    hide IsState;
    CountDistinct(m.kernels, |m.kernels|);
    forall kernel | kernel in KernelsOf(m)
      ensures IsState(g, kernel)
    {
      var j :| 0 <= j < |m.kernels| && m.kernels[j] == kernel;
      KernelReached(g, m, j);
    }
  }

  lemma {:induction false} SubsetCount<T>(a: set<T>, b: set<T>)
    requires a <= b
    ensures |a| <= |b|
    decreases a
  {
    if a != {} {
      var x :| x in a;
      SubsetCount(a - {x}, b - {x});
    }
  }

  /** So the number of states of a complete collection is that of the grammar. */
  lemma CollectionCount(g: Grammar, m: Automaton, n: int)
    requires IsCollection(g, m)
    ensures StatesAtMost(g, n) <==> |m.kernels| <= n
  {
    hide IsState, KernelsOk, DistinctKernels, ClosedUnderGoto, HasPredecessor;
    AutomatonStates(g, m);
    if |m.kernels| <= n {
      forall kernels | AllStates(g, kernels)
        ensures |kernels| <= n
      {
        forall kernel | kernel in kernels
          ensures kernel in KernelsOf(m)
        {
          StateHeld(g, m, kernel);
        }
        SubsetCount(kernels, KernelsOf(m));
      }
    }
  }

  lemma StateHeld(g: Grammar, m: Automaton, kernel: set<Lr0>)
    requires IsCollection(g, m) && IsState(g, kernel)
    ensures kernel in KernelsOf(m)
  {
    var k: nat :| ReachedIn(g, kernel, k);
    var j := StateFound(g, m, kernel, k);
  }

  // ------------------------------------------------------------------ a bound by the rules alone

  /** The items with something before the dot: one for each right-hand side symbol. */
  ghost function Advanced(g: Grammar): set<Lr0> {
    set r: nat, d: nat | r < |g.prods| && d <= |g.prods[r]| && d > 0 && ValidItem(g, Lr0(r, d)) :: Lr0(r, d)
  }

  ghost function Pow2(n: nat): nat {
    if n == 0 then 1 else 2 * Pow2(n - 1)
  }

  lemma StateShape(g: Grammar, kernel: set<Lr0>)
    requires IsState(g, kernel)
    ensures kernel == {StartItem} || (kernel != {} && kernel <= Advanced(g))
  {
    hide InClosure;
    var n: nat :| ReachedIn(g, kernel, n);
    if n > 0 {
      var from, x :| OneGoto(g, from, x, kernel) && ReachedIn(g, from, n - 1);
      forall it | it in kernel
        ensures it in Advanced(g)
      {
        assert InGoto(g, from, x, it);
        assert it == Lr0(it.rule, it.dot);
      }
    }
  }

  lemma {:induction false} WithoutCount<T>(sets: set<set<T>>, x: T)
    requires forall k :: k in sets ==> x in k
    ensures |set k | k in sets :: k - {x}| == |sets|
    decreases sets
  {
    var less := set k | k in sets :: k - {x};
    if sets == {} {
      assert less == {};
    } else {
      var s :| s in sets;
      WithoutCount(sets - {s}, x);
      var rest := set k | k in sets - {s} :: k - {x};
      assert less == rest + {s - {x}};
      forall k | k in sets - {s}
        ensures k - {x} != s - {x}
      {
        assert k == (k - {x}) + {x} && s == (s - {x}) + {x};
      }
    }
  }

  /** A set of n elements has no more than 2^n subsets. */
  lemma {:induction false} SubsetsAtMost<T>(s: set<T>, sets: set<set<T>>)
    requires forall k :: k in sets ==> k <= s
    ensures |sets| <= Pow2(|s|)
    decreases s
  {
    if s == {} {
      forall k | k in sets
        ensures k == {}
      {
        assert k <= {};
      }
      SubsetCount(sets, {{}});
    } else {
      var x :| x in s;
      var having := set k | k in sets && x in k;
      var less := set k | k in having :: k - {x};
      WithoutCount(having, x);
      SubsetsAtMost(s - {x}, less);
      SubsetsAtMost(s - {x}, sets - having);
      assert sets == having + (sets - having);
      assert |s - {x}| == |s| - 1;
    }
  }

  /** A grammar has no more states than there are sets of items with something before the dot. */
  lemma StatesBounded(g: Grammar)
    ensures StatesAtMost(g, Pow2(|Advanced(g)|))
  {
    hide IsState, Pow2;
    forall kernels | AllStates(g, kernels)
      ensures |kernels| <= Pow2(|Advanced(g)|)
    {
      var later := kernels - {{StartItem}};
      forall kernel | kernel in kernels
        ensures kernel == {StartItem} || (kernel != {} && kernel <= Advanced(g))
      {
        StateShape(g, kernel);
      }
      SubsetsAtMost(Advanced(g), later + {{}});
      SubsetCount(kernels, later + {{StartItem}});
      assert {} !in later;
    }
  }

  // ------------------------------------------------------------------ when stagen gives up

  /** stagen reports too many states only of a grammar that has too many. */
  lemma TooManyStates(g: Grammar, m: Automaton)
    requires TooMany(g, m)
    ensures !StatesAtMost(g, NSTATES - 1)
  {
    hide IsState, IsGoto, HasPredecessors, AllEntered, KernelsOk, DistinctKernels;
    AutomatonStates(g, m);
    var i, c, target :| MissingGoto(g, m, i, c, target);
    KernelReached(g, m, i);
    StateStep(g, m.kernels[i], c, target);
    var more := KernelsOf(m) + {target};
    assert AllStates(g, more) && |more| == |m.kernels| + 1;
  }

  /** And a row that fits nowhere only of one whose rows do not all fit side by side. */
  lemma StuckNeedsRoom(g: Grammar, m: Automaton, mem: seq<int>, go: seq<int>, i: int, row: seq<int>, n: int)
    requires RowStuck(g, m, mem, go, i, row) && StatesAtMost(g, n)
    ensures n * g.nnonter > ACTSIZE
  {
    hide Fits, PackedRows, PackedState, GotosIn, HasPredecessors, AllEntered, KernelsOk, DistinctKernels, AllStates,
      RowCell;
    AutomatonStates(g, m);
    assert |m.kernels| <= n;
    PackedBound(g, m, mem, go, i);
    var top := i * g.nnonter;
    assert !Fits(mem, row[1..], top);
    if top + g.nnonter <= ACTSIZE {
      RoomAbove(mem, row[1..], top);
    }
    TimesMore(i + 1, n, g.nnonter);
  }

  lemma TimesMore(a: int, b: int, c: nat)
    requires a <= b
    ensures a * c <= b * c
  {
  }
}
