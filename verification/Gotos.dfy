/** The goto columns of the nonterminals (go2gen and go2out in cmd/goyacc/yacc.go). */
module GotoColumns {
  import opened Grammars
  import opened Items
  import opened Lookaheads
  import opened WorkingSets
  import opened KernelStore
  import opened StateLists
  import opened Generating
  import opened Actions

  // ------------------------------------------------------------------ left corners

  /** Marked nonterminals have left corner NTBASE + c. */
  ghost predicate MarksSound(g: Grammar, marks: seq<int>, c: nat) {
    |marks| == g.nnonter + 1 && forall x: nat :: x <= g.nnonter && marks[x] != 0 ==>
      LeftCorner(g, NTBASE + x, NTBASE + c)
  }

  ghost predicate RuleClosed(g: Grammar, marks: seq<int>, r: nat)
    requires |marks| == g.nnonter + 1
  {
    HasRule(g, r) && IsNonter(g, g.prods[r][0]) && IsNonter(g, g.prods[r][1]) && marks[g.prods[r][1] - NTBASE] != 0 ==>
      marks[g.prods[r][0] - NTBASE] != 0
  }

  lemma {:induction false} MarksComplete(g: Grammar, marks: seq<int>, c: nat, a: int, n: nat)
    requires WellFormed(g) && |marks| == g.nnonter + 1 && c <= g.nnonter && marks[c] != 0
    requires (forall r :: 0 <= r < |g.prods| ==> RuleClosed(g, marks, r)) && IsNonter(g, a)
    requires Corner(g, a, NTBASE + c, n)
    ensures marks[a - NTBASE] != 0
    decreases n
  {
    if n > 0 {
      var r: nat :| CornerStep(g, a, r) && Corner(g, Rhs(g, r)[0], NTBASE + c, n - 1);
      FirstSymbol(g, r);
      MarksComplete(g, marks, c, Rhs(g, r)[0], n - 1);
      assert RuleClosed(g, marks, r);
    }
  }

  /** prods[r][1] is the first symbol of the right-hand side, or the terminator. */
  lemma FirstSymbol(g: Grammar, r: nat)
    requires WellFormed(g) && r < |g.prods|
    ensures HasRule(g, r) && IsNonter(g, g.prods[r][0]) && g.prods[r][0] == Lhs(g, r)
    ensures g.prods[r][1] >= NTBASE <==> |Rhs(g, r)| > 0 && Rhs(g, r)[0] >= NTBASE
    ensures g.prods[r][1] >= NTBASE ==> Rhs(g, r)[0] == g.prods[r][1] && IsNonter(g, g.prods[r][1])
  {
    RuleShape(g, r);
    if |Rhs(g, r)| > 0 {
      assert Rhs(g, r)[0] in Rhs(g, r);
      assert Rhs(g, r)[0] == g.prods[r][1];
    }
  }

  lemma CornerPrepend(g: Grammar, r: nat, b: int)
    requires WellFormed(g) && HasRule(g, r) && g.prods[r][1] >= NTBASE && LeftCorner(g, g.prods[r][1], b)
    ensures LeftCorner(g, g.prods[r][0], b)
  {
    FirstSymbol(g, r);
    var n: nat :| Corner(g, Rhs(g, r)[0], b, n);
    assert CornerStep(g, Lhs(g, r), r) && Corner(g, Rhs(g, r)[0], b, n + 1 - 1);
    assert Corner(g, Lhs(g, r), b, n + 1);
  }

  /** The dot stands before c somewhere in the closure exactly when some kernel item has its
      dot before a symbol with left corner c. */
  lemma ExpectsByCorner(g: Grammar, kernel: set<Lr0>, c: int)
    requires c >= NTBASE
    ensures (exists it :: InClosure(g, kernel, it) && ValidItem(g, it) && Next(g, it) == c) <==>
      Introduced(g, kernel, c)
  {
    if it :| InClosure(g, kernel, it) && ValidItem(g, it) && Next(g, it) == c {
      if it in kernel {
        assert Corner(g, c, c, 0);
      } else {
        var k :| k in kernel && ValidItem(g, k) && Next(g, k) >= NTBASE && LeftCorner(g, Next(g, k), Lhs(g, it.rule));
        var n: nat :| Corner(g, Next(g, k), Lhs(g, it.rule), n);
        CornerExtend(g, Next(g, k), Lhs(g, it.rule), n, it.rule);
        assert LeftCorner(g, Next(g, k), c);
      }
    }
    if Introduced(g, kernel, c) {
      var k :| k in kernel && ValidItem(g, k) && Next(g, k) >= NTBASE && LeftCorner(g, Next(g, k), c);
      var n: nat :| Corner(g, Next(g, k), c, n);
      CornerExpected(g, kernel, k, c, n);
    }
  }

  /** Exactly the nonterminals with left corner NTBASE + c are marked. */
  ghost predicate MarksExact(g: Grammar, marks: seq<int>, c: nat) {
    |marks| == g.nnonter + 1 && forall x: nat :: x <= g.nnonter ==>
      (marks[x] != 0 <==> LeftCorner(g, NTBASE + x, NTBASE + c))
  }

  lemma MarksAreExact(g: Grammar, marks: seq<int>, c: nat)
    requires WellFormed(g) && MarksSound(g, marks, c) && c <= g.nnonter && marks[c] != 0
    requires forall r :: 0 <= r < |g.prods| ==> RuleClosed(g, marks, r)
    ensures MarksExact(g, marks, c)
  {
    forall x: nat | x <= g.nnonter && LeftCorner(g, NTBASE + x, NTBASE + c)
      ensures marks[x] != 0
    {
      var n: nat :| Corner(g, NTBASE + x, NTBASE + c, n);
      MarksComplete(g, marks, c, NTBASE + x, n);
    }
  }

  ghost predicate MarkedEntry(marks: seq<int>, it: Pitem) {
    it.first >= NTBASE && it.first - NTBASE < |marks| && marks[it.first - NTBASE] != 0
  }

  /** A state has a goto on NTBASE + c when one of its kernel items is marked. */
  lemma MarkedExpects(g: Grammar, m: Automaton, i: int, kern: seq<Item>, marks: seq<int>, c: nat)
    requires WellFormed(g) && 0 <= i < |m.kernels| && KernelMatches(g, kern, m.kernels[i]) && MarksExact(g, marks, c)
    ensures Expects(g, m, i, NTBASE + c) <==> exists k :: 0 <= k < |kern| && MarkedEntry(marks, kern[k].pitem)
  {
    hide LeftCorner, WellFormed, MarksExact, PitemOk;
    ExpectsByCorner(g, m.kernels[i], NTBASE + c);
    forall k | 0 <= k < |kern|
      ensures MarkedEntry(marks, kern[k].pitem) <==> EntryIntroduces(g, kern[k].pitem, NTBASE + c)
    {
      EntryMarked(g, marks, c, kern[k].pitem);
    }
    if k :| 0 <= k < |kern| && MarkedEntry(marks, kern[k].pitem) {
      assert ItemOf(kern[k].pitem) in KernelSet(kern);
    }
    if it :| it in m.kernels[i] && ValidItem(g, it) && Next(g, it) >= NTBASE && LeftCorner(g, Next(g, it), NTBASE + c) {
      var k :| 0 <= k < |kern| && ItemOf(kern[k].pitem) == it;
      assert EntryIntroduces(g, kern[k].pitem, NTBASE + c);
    }
  }

  ghost predicate EntryIntroduces(g: Grammar, p: Pitem, c: int) {
    ValidItem(g, ItemOf(p)) && Next(g, ItemOf(p)) >= NTBASE && LeftCorner(g, Next(g, ItemOf(p)), c)
  }

  lemma EntryMarked(g: Grammar, marks: seq<int>, c: nat, p: Pitem)
    requires WellFormed(g) && PitemOk(g, p) && MarksExact(g, marks, c)
    ensures MarkedEntry(marks, p) <==> EntryIntroduces(g, p, NTBASE + c)
  {
    hide LeftCorner;
    PitemShape(g, p);
    if p.first >= NTBASE {
      assert NTBASE + (p.first - NTBASE) == p.first;
    }
  }

  // ------------------------------------------------------------------ a column

  /** col holds the gotos of the states on NTBASE + c, and 0 where there is none. */
  ghost predicate ColumnOf(g: Grammar, m: Automaton, c: nat, col: seq<int>) {
    && |col| == |m.kernels|
    && forall i :: 0 <= i < |col| ==> ColumnEntry(g, m, i, c, col[i])
  }

  ghost predicate ColumnEntry(g: Grammar, m: Automaton, i: int, c: nat, v: int) {
    if Expects(g, m, i, NTBASE + c) then v > 0 && Trans(g, m, i, NTBASE + c, v) else v == 0
  }

  /** What go2out keeps of a column: the most frequent entry, and the entries that differ. */
  datatype Goent = Goent(pairs: seq<(int, int)>, best: int)

  function GotoPairs(col: seq<int>, best: int, n: nat): seq<(int, int)>
    requires n <= |col|
  {
    if n == 0 then []
    else GotoPairs(col, best, n - 1) + if col[n - 1] != 0 && col[n - 1] != best then [(n - 1, col[n - 1])] else []
  }

  lemma {:induction false} GotoPairsExact(col: seq<int>, best: int, n: nat, j: int, v: int)
    requires n <= |col|
    ensures Increasing(GotoPairs(col, best, n), n)
    ensures (j, v) in GotoPairs(col, best, n) <==> 0 <= j < n && col[j] != 0 && col[j] != best && v == col[j]
  {
    if n > 0 {
      GotoPairsExact(col, best, n - 1, j, v);
    }
  }

  /** best is the most frequent nonzero entry, or 0 when there is none. */
  ghost predicate MostFrequent(col: seq<int>, best: int) {
    && (best != 0 ==> Count(col, best, |col|) > 0)
    && forall v :: v != 0 && Count(col, v, |col|) > 0 ==> best != 0 && Count(col, v, |col|) <= Count(col, best, |col|)
  }

  ghost predicate Compressed(col: seq<int>, e: Goent) {
    MostFrequent(col, e.best) && e.pairs == GotoPairs(col, e.best, |col|)
  }

  /** The entry that the compressed column gives for state j. */
  ghost predicate Gives(e: Goent, j: int, v: int) {
    (j, v) in e.pairs || (v == e.best && forall w :: (j, w) !in e.pairs)
  }

  /** No goto is lost: where there is an entry, the compressed column gives that entry only. */
  lemma CompressionKeeps(col: seq<int>, e: Goent, j: nat, v: int)
    requires Compressed(col, e) && j < |col| && col[j] != 0
    ensures Gives(e, j, v) <==> v == col[j]
  {
    forall w
      ensures (j, w) in e.pairs <==> col[j] != e.best && w == col[j]
    {
      GotoPairsExact(col, e.best, |col|, j, w);
    }
    assert (j, col[j]) in e.pairs <==> col[j] != e.best;
  }

  class GotoWriter {
    const gen: Generator
    var temp1: seq<int>
    var tystate: seq<int>
    var yypgo: seq<Goent>

    constructor (gen: Generator)
      ensures this.gen == gen && yypgo == []
    {
      this.gen := gen;
      temp1, tystate, yypgo := [], [], [];
    }

    /** The first loop of go2gen: temp1 marks the nonterminals with left corner c. */
    method MarkCorners(c: nat)
      requires WellFormed(gen.f.g) && c <= gen.f.g.nnonter
      modifies `temp1
      ensures MarksExact(gen.f.g, temp1, c)
    {
      hide Corner, LeftCorner, WellFormed;
      var g := gen.f.g;
      temp1 := seq(g.nnonter + 1, _ => 0);
      temp1 := temp1[c := 1];
      ItselfCorner(g, c);
      var work := true;
      while work
        invariant MarksSound(g, temp1, c) && temp1[c] != 0
        invariant !work ==> forall r :: 0 <= r < |g.prods| ==> RuleClosed(g, temp1, r)
        decreases Unmarked(temp1), work
      {
        work := false;
        ghost var was := temp1;
        for i := 0 to |g.prods|
          invariant MarksSound(g, temp1, c) && temp1[c] != 0
          invariant if work then Unmarked(temp1) < Unmarked(was) else temp1 == was
          invariant !work ==> forall r :: 0 <= r < i ==> RuleClosed(g, temp1, r)
        {
          FirstSymbol(g, i);
          var cc := g.prods[i][1] - NTBASE;
          if cc >= 0 && temp1[cc] != 0 {
            CornerPrepend(g, i, NTBASE + c);
            ghost var before := temp1;
            cc := g.prods[i][0] - NTBASE;
            if temp1[cc] == 0 {
              work := true;
              temp1 := temp1[cc := 1];
              assert cc in Unmarked(before) && cc !in Unmarked(temp1);
              assert Unmarked(temp1) <= Unmarked(before);
            }
          }
        }
      }
      MarksAreExact(g, temp1, c);
    }

    /** The second loop of go2gen for one state. */
    method GotoOfState(i: nat, c: nat) returns (v: int)
      requires gen.Finished() && i < gen.st.nstate && 1 <= c <= gen.f.g.nnonter && MarksExact(gen.f.g, temp1, c)
      ensures ColumnEntry(gen.f.g, gen.st.auto, i, c, v)
    {
      hide Generator.Finished, StateList.Valid, FactsOk, Sized, IsCollection, MarksExact, Expects, Trans;
      gen.FinishedFacts();
      gen.StateKernel(i);
      var q := gen.st.pstate[i + 1];
      ghost var kern, p0 := gen.st.Kern(i), gen.st.pstate[i];
      MarkedExpects(gen.f.g, gen.st.auto, i, kern, temp1, c);
      MarksSize(gen.f.g, temp1, c);
      for p := gen.st.pstate[i] to q
        invariant forall k :: 0 <= k < p - p0 ==> !MarkedEntry(temp1, kern[k].pitem)
      {
        assert kern[p - p0] == gen.st.statemem[p];
        KernelFirst(gen.f.g, kern, gen.st.auto.kernels[i], p - p0);
        var cc := gen.st.statemem[p].pitem.first;
        if cc >= NTBASE {
          if temp1[cc - NTBASE] != 0 {
            assert MarkedEntry(temp1, kern[p - p0].pitem);
            gen.StoredGoto(i, c);
            TargetPositive(gen.f.g, gen.st.auto, i, NTBASE + c, gen.amem[gen.indgo[i] + c]);
            return gen.amem[gen.indgo[i] + c];
          }
        }
      }
      v := 0;
    }

    /** go2gen: tystate becomes the goto column of nonterminal c. */
    method Go2gen(c: nat)
      requires gen.Finished() && 1 <= c <= gen.f.g.nnonter
      modifies `temp1, `tystate
      ensures ColumnOf(gen.f.g, gen.st.auto, c, tystate)
    {
      hide Generator.Finished, StateList.Valid, FactsOk, Sized, WellFormed, IsCollection, MarksExact, ColumnEntry;
      gen.FinishedFacts();
      MarkCorners(c);
      tystate := [];
      for i := 0 to gen.st.nstate
        invariant MarksExact(gen.f.g, temp1, c)
        invariant |tystate| == i && forall k :: 0 <= k < i ==> ColumnEntry(gen.f.g, gen.st.auto, k, c, tystate[k])
      {
        var v := GotoOfState(i, c);
        tystate := tystate + [v];
      }
    }

    /** The loops of go2out that find the best default; -1 when the column is empty. */
    method BestGoto() returns (best: int)
      requires forall j :: 0 <= j < |tystate| ==> tystate[j] >= 0
      ensures best == -1 || best > 0
      ensures MostFrequent(tystate, if best == -1 then 0 else best)
    {
      best := -1;
      var times, n := 0, |tystate|;
      for j := 0 to n
        invariant best == -1 || best > 0
        invariant times == (if best > 0 then Count(tystate, best, n) else 0)
        invariant best > 0 ==> times > 0
        invariant forall v :: v != 0 && Count(tystate, v, j) > 0 ==> Count(tystate, v, n) <= times
      {
        CountsUpTo(tystate, j, n);
        if tystate[j] == 0 {
          continue;
        }
        if tystate[j] == best {
          continue;
        }
        var count, cbest := 0, tystate[j];
        for k := j to n
          invariant count == Count(tystate, cbest, k) - Count(tystate, cbest, j)
        {
          if tystate[k] == cbest {
            count := count + 1;
          }
        }
        CountPositive(tystate, cbest, n);
        if count > times {
          best := cbest;
          times := count;
        }
      }
    }

    /** The loop that lists the gotos that differ from the default. */
    method ListGotos(best: int) returns (pairs: seq<(int, int)>)
      ensures pairs == GotoPairs(tystate, best, |tystate|)
    {
      pairs := [];
      for j := 0 to |tystate|
        invariant pairs == GotoPairs(tystate, best, j)
      {
        if tystate[j] != 0 && tystate[j] != best {
          pairs := pairs + [(j as int, tystate[j])];
        }
      }
    }

    /** go2out: yypgo[c] is the compressed column of nonterminal c. */
    method Go2out()
      requires gen.Finished()
      modifies `temp1, `tystate, `yypgo
      ensures ColumnsOut(gen.f.g, gen.st.auto, yypgo)
    {
      hide Generator.Finished, ColumnOf, Compressed, ColumnOut, MostFrequent, GotoPairs;
      yypgo := [Goent([], 0)];
      for i := 1 to gen.f.g.nnonter + 1
        invariant |yypgo| == i
        invariant forall c: nat :: 1 <= c < i ==> ColumnOut(gen.f.g, gen.st.auto, c, yypgo[c])
      {
        Go2gen(i);
        ColumnSigns(gen.f.g, gen.st.auto, i, tystate);
        var best := BestGoto();
        var pairs := ListGotos(best);
        if best == -1 {
          best := 0;
          NothingListed(tystate);
        }
        yypgo := yypgo + [Goent(pairs, best)];
        ColumnDone(gen.f.g, gen.st.auto, i, tystate, yypgo[i]);
      }
    }
  }

  ghost predicate ColumnOut(g: Grammar, m: Automaton, c: nat, e: Goent) {
    exists col :: ColumnOf(g, m, c, col) && Compressed(col, e)
  }

  ghost predicate ColumnsOut(g: Grammar, m: Automaton, yypgo: seq<Goent>) {
    |yypgo| == g.nnonter + 1 && forall c: nat :: 1 <= c <= g.nnonter ==> ColumnOut(g, m, c, yypgo[c])
  }

  ghost function Unmarked(marks: seq<int>): set<int> {
    set x | 0 <= x < |marks| && marks[x] == 0
  }

  lemma ItselfCorner(g: Grammar, c: nat)
    ensures LeftCorner(g, NTBASE + c, NTBASE + c)
  {
    assert Corner(g, NTBASE + c, NTBASE + c, 0);
  }

  lemma MarksSize(g: Grammar, marks: seq<int>, c: nat)
    requires MarksExact(g, marks, c)
    ensures |marks| == g.nnonter + 1
  {
  }

  lemma KernelFirst(g: Grammar, kern: seq<Item>, kernel: set<Lr0>, k: nat)
    requires WellFormed(g) && KernelMatches(g, kern, kernel) && k < |kern|
    ensures kern[k].pitem.first >= NTBASE ==> kern[k].pitem.first <= NTBASE + g.nnonter
  {
    assert PitemOk(g, kern[k].pitem);
    PitemShape(g, kern[k].pitem);
  }

  lemma TargetPositive(g: Grammar, m: Automaton, i: int, x: int, j: int)
    requires Trans(g, m, i, x, j)
    ensures j > 0
  {
  }

  lemma ColumnSigns(g: Grammar, m: Automaton, c: nat, col: seq<int>)
    requires ColumnOf(g, m, c, col)
    ensures forall j :: 0 <= j < |col| ==> col[j] >= 0
  {
    forall j | 0 <= j < |col|
      ensures col[j] >= 0
    {
      assert ColumnEntry(g, m, j, c, col[j]);
    }
  }

  lemma {:induction false} PairsForNothing(col: seq<int>, n: nat)
    requires n <= |col| && forall j :: 0 <= j < |col| ==> col[j] == 0
    ensures GotoPairs(col, -1, n) == GotoPairs(col, 0, n)
  {
    if n > 0 {
      PairsForNothing(col, n - 1);
    }
  }

  lemma NothingListed(col: seq<int>)
    requires MostFrequent(col, 0)
    ensures GotoPairs(col, -1, |col|) == GotoPairs(col, 0, |col|)
  {
    forall j | 0 <= j < |col|
      ensures col[j] == 0
    {
      CountPositive(col, col[j], |col|);
    }
    PairsForNothing(col, |col|);
  }

  lemma ColumnDone(g: Grammar, m: Automaton, c: nat, col: seq<int>, e: Goent)
    requires ColumnOf(g, m, c, col) && MostFrequent(col, e.best) && e.pairs == GotoPairs(col, e.best, |col|)
    ensures ColumnOut(g, m, c, e)
  {
    assert Compressed(col, e);
  }
}
