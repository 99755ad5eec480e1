/** main (cmd/goyacc/yacc.go): from the grammar to the tables of the parser. */
module Pipeline {
  import opened Grammars
  import opened Productions
  import Nullable
  import opened Firsts
  import opened Items
  import opened Lookaheads
  import opened WorkingSets
  import opened Kernels
  import opened KernelStore
  import opened StateLists
  import Collecting
  import LookaheadMeaning
  import opened Generating
  import opened Capacity
  import opened Propagation
  import Rounds
  import opened Actions
  import opened RowWriting
  import opened GotoColumns
  import opened Placement
  import opened Spans
  import opened Optimizing
  import opened Tables
  import opened Parsing
  import opened Machines
  import opened Completeness
  import opened Deciding

  // ------------------------------------------------------------------ rows to jobs

  lemma ShiftsEntered(g: Grammar, m: Automaton, i: nat, row: Row, b: Job)
    requires RowOk(g, m, i, row) && b.access == m.access && b.ntokens == g.ntokens && |m.kernels| == |m.access|
    ensures ShiftsOk(b, Shifts(row.actions, g.ntokens + 1))
  {
    hide Shifts;
    var pairs := Shifts(row.actions, g.ntokens + 1);
    ShiftsExact(row.actions, g.ntokens + 1, 0, 0);
    forall r | 0 <= r < |pairs|
      ensures EnteredOn(b, pairs[r].1, pairs[r].0)
    {
      assert pairs[r] in pairs;
      ShiftsExact(row.actions, g.ntokens + 1, pairs[r].0, pairs[r].1);
      assert ActionOk(g, m, i, pairs[r].0, row.actions[pairs[r].0]);
    }
  }

  lemma ColumnEntered(g: Grammar, m: Automaton, c: nat, e: Goent, b: Job)
    requires ColumnOut(g, m, c, e) && b.access == m.access && |m.kernels| == |m.access| == |b.optst|
    ensures GotosOk(b, c, e)
  {
    hide GotoPairs, Trans, Expects, MostFrequent;
    var col :| ColumnOf(g, m, c, col) && Compressed(col, e);
    GotoPairsExact(col, e.best, |col|, 0, 0);
    forall r | 0 <= r < |e.pairs|
      ensures EnteredOn(b, e.pairs[r].1, NTBASE + c)
    {
      assert e.pairs[r] in e.pairs;
      GotoPairsExact(col, e.best, |col|, e.pairs[r].0, e.pairs[r].1);
      EntryEntered(g, m, e.pairs[r].0, c, col[e.pairs[r].0], b);
    }
    BestEntered(g, m, c, col, e.best, b);
  }

  lemma EntryEntered(g: Grammar, m: Automaton, i: int, c: nat, v: int, b: Job)
    requires ColumnEntry(g, m, i, c, v) && v != 0 && b.access == m.access
    ensures EnteredOn(b, v, NTBASE + c)
  {
  }

  lemma BestEntered(g: Grammar, m: Automaton, c: nat, col: seq<int>, best: int, b: Job)
    requires ColumnOf(g, m, c, col) && MostFrequent(col, best) && b.access == m.access
    ensures best == 0 || EnteredOn(b, best, NTBASE + c)
  {
    if best != 0 {
      CountPositive(col, best, |col|);
      var p :| 0 <= p < |col| && col[p] == best;
      EntryEntered(g, m, p, c, col[p], b);
    }
  }

  /** The rows and the columns make a job that callopt can do. */
  lemma JobMade(g: Grammar, m: Automaton, rows: seq<Row>, optst: seq<seq<(int, int)>>, yypgo: seq<Goent>)
    requires RowsFit(g, m, rows) && g.ntokens < 1000 && g.nnonter < 1000 && ColumnsOut(g, m, yypgo)
    requires |optst| == |rows| && forall i :: 0 <= i < |rows| ==>
      |rows[i].actions| > g.ntokens && optst[i] == Shifts(rows[i].actions, g.ntokens + 1)
    ensures JobOk(Job(optst, yypgo, m.access, g.ntokens, g.nnonter))
    ensures JobFrom(g, m, rows, yypgo, Job(optst, yypgo, m.access, g.ntokens, g.nnonter))
  {
    hide RowOk, Shifts, ColumnOut, ShiftsOk, GotosOk, Trans;
    forall k | 0 < k < |m.access|
      ensures m.access[k] > ENDTOK
    {
      assert HasPredecessor(g, m, k);
    }
    var b := Job(optst, yypgo, m.access, g.ntokens, g.nnonter);
    forall k: nat | k < |b.optst|
      ensures ShiftsOk(b, b.optst[k])
    {
      ShiftsEntered(g, m, k, rows[k], b);
    }
    forall c: nat | 1 <= c <= b.nnonter
      ensures GotosOk(b, c, b.yypgo[c])
    {
      ColumnEntered(g, m, c, yypgo[c], b);
    }
  }

  // ------------------------------------------------------------------ tables to the parser

  /** The searches of the parser in the exception table succeed. */
  lemma ExcaSearch(rows: seq<Row>, ntokens: nat, i: nat, token: nat)
    requires WideRows(rows, ntokens) && i < |rows| && Exceptions(rows[i].actions, ntokens + 1) != []
    ensures ExcaHas(ExcaTable(rows, ntokens), i, token)
  {
    hide Exceptions, ExcaTable, BlockAt;
    var exca, row := ExcaTable(rows, ntokens), rows[i];
    var exc := Exceptions(row.actions, ntokens + 1);
    var k := BlockFound(rows, ntokens, i);
    BlockCells(exca, i, row, ntokens, k);
    NoHeaderBefore(exca, i, row, ntokens, k);
    HeaderIs(exca, i, k, 0);
    ExceptionsExact(row.actions, ntokens + 1, token, 0);
    ListRead(exca, exc, ntokens + 1, k + 1, token);
  }

  /** The row's action can be taken, whether it is its own or the default. */
  lemma RowActionOk(g: Grammar, m: Automaton, i: nat, row: Row, token: nat)
    requires RowOk(g, m, i, row) && 1 <= token <= g.ntokens
    ensures RowSigns(row) && ActionOk(g, m, i, token, RowAction(row, token)) && RowAction(row, token) != 0
  {
    assert ActionOk(g, m, i, token, row.actions[token]);
  }

  ghost predicate AllDecode(t: Table, rows: seq<Row>, ntokens: nat) {
    forall i: nat, token: nat :: i < |rows| && token <= ntokens ==> DecodesAs(t, rows[i], i, token)
  }

  ghost predicate DecodesAs(t: Table, row: Row, i: nat, token: nat) {
    token < |row.actions| && Decode(t, i, token) == RowAction(row, token)
  }

  /** The compressed tables drive the parser, and agree with the rows. */
  lemma TablesDrive(g: Grammar, m: Automaton, rows: seq<Row>, yypgo: seq<Goent>, b: Job, mem: seq<int>, indgo: seq<int>,
                    pgo: seq<int>, ggreed: seq<int>, tystate: seq<int>, maxa: int, t: Table,
                    optst: seq<seq<(int, int)>>)
    requires RowsFit(g, m, rows) && JobFrom(g, m, rows, yypgo, b)
    requires Printed(b, mem, indgo, pgo, ggreed, tystate, maxa, t)
    requires Written(rows, g.ntokens, t.def, optst, t.exca) && RulesRight(g, t.r1, t.r2)
    ensures Drives(g, m, t) && AllDecode(t, rows, g.ntokens)
  {
    hide RowOk, IsCollection, WellFormed, Printed, Written, JobFrom, Decode, ActionOk, Trans, ExcaHas, TableInside,
      ExcaOk, GotoOf;
    CollectionAccess(g, m);
    TableFits(g, m, rows, yypgo, b, mem, indgo, pgo, ggreed, tystate, maxa, t, optst);
    forall i: nat, token: nat | i < |rows| && token <= g.ntokens
      ensures DecodesAs(t, rows[i], i, token)
      ensures token >= 1 ==> ActionFits(g, m, t, i, token)
    {
      RowSize(g, m, i, rows[i]);
      FromJob(g, m, rows, yypgo, b);
      DecodeAction(g, m, rows, yypgo, b, mem, indgo, pgo, ggreed, tystate, maxa, t, optst, i, token);
      if token >= 1 {
        RowActionOk(g, m, i, rows[i], token);
      }
    }
    forall i: nat, c: nat | 1 <= c <= g.nnonter && i < |m.kernels|
      ensures GotoFits(g, m, t, i, c)
    {
      if Expects(g, m, i, NTBASE + c) {
        GotoDecoded(g, m, rows, yypgo, b, mem, indgo, pgo, ggreed, tystate, maxa, t, i, c);
      }
    }
  }

  lemma RowSize(g: Grammar, m: Automaton, i: nat, row: Row)
    requires RowOk(g, m, i, row)
    ensures |row.actions| == g.ntokens + g.nnonter + 1 && RowSigns(row)
  {
  }

  lemma FromJob(g: Grammar, m: Automaton, rows: seq<Row>, yypgo: seq<Goent>, b: Job)
    requires JobFrom(g, m, rows, yypgo, b)
    ensures b.access == m.access && b.ntokens == g.ntokens && b.nnonter == g.nnonter && |b.optst| == |rows|
  {
  }

  lemma GotoDecoded(g: Grammar, m: Automaton, rows: seq<Row>, yypgo: seq<Goent>, b: Job, mem: seq<int>, indgo: seq<int>,
                    pgo: seq<int>, ggreed: seq<int>, tystate: seq<int>, maxa: int, t: Table, i: nat, c: nat)
    requires JobFrom(g, m, rows, yypgo, b) && Printed(b, mem, indgo, pgo, ggreed, tystate, maxa, t)
    requires AccessOk(g, m.access)
    requires 1 <= c <= g.nnonter && i < |m.kernels| && Expects(g, m, i, NTBASE + c)
    ensures Trans(g, m, i, NTBASE + c, GotoOf(t, i, c))
  {
    hide Printed, GotoOf, Compressed, Trans, Expects;
    var e := yypgo[c];
    assert ColumnOut(g, m, c, e);
    var col :| ColumnOf(g, m, c, col) && Compressed(col, e);
    assert ColumnEntry(g, m, i, c, col[i]);
    DecodeGoto(g, b, mem, indgo, pgo, ggreed, tystate, maxa, t, col, i, c);
  }

  lemma TableFits(g: Grammar, m: Automaton, rows: seq<Row>, yypgo: seq<Goent>, b: Job, mem: seq<int>, indgo: seq<int>,
                  pgo: seq<int>, ggreed: seq<int>, tystate: seq<int>, maxa: int, t: Table, optst: seq<seq<(int, int)>>)
    requires RowsFit(g, m, rows) && JobFrom(g, m, rows, yypgo, b)
    requires Printed(b, mem, indgo, pgo, ggreed, tystate, maxa, t)
    requires Written(rows, g.ntokens, t.def, optst, t.exca)
    ensures TableInside(t, |m.kernels|) && |t.pgo| == g.nnonter + 1 && ExcaOk(t)
  {
    hide RowOk, IsCollection, WellFormed, ExcaHas, Layout, JobOk, Queued, Open, ColumnsOut, Exceptions, ExcaTable,
      Shifts;
    PrintedSizes(b, mem, indgo, pgo, ggreed, tystate, maxa, t);
    forall q | 0 <= q < |t.act|
      ensures 0 <= t.act[q] < |m.kernels|
    {
      CellIsState(b, mem, indgo, pgo, ggreed, q);
    }
    forall c: nat | 1 <= c < |t.pgo|
      ensures 0 <= t.pgo[c] < t.last
    {
      ColumnPlaced(b, mem, indgo, pgo, ggreed, tystate, maxa, c);
    }
    forall i: nat, token: nat | i < |t.def| && t.def[i] == -2
      ensures ExcaHas(t.exca, i, token)
    {
      ExcaSearch(rows, g.ntokens, i, token);
    }
  }

  // ------------------------------------------------------------------ the stages in order

  /** Every nonterminal has a rule and derives some token string. */
  ghost predicate Meaningful(g: Grammar) {
    (forall i: nat :: i <= g.nnonter ==> Defined(g, i)) && Nullable.Productive(g)
  }

  /** cpres, cempty and cpfir; ok is false exactly for a grammar with undefined or empty
      nonterminals. */
  method Analyse(g: Grammar) returns (ok: bool, f: Facts)
    requires WellFormed(g)
    ensures (ok <==> Meaningful(g)) && (ok ==> FactsOk(f) && f.g == g)
  {
    hide Nullable.Productive, Defined, WellFormed;
    f := Facts(g, [], [], []);
    var pres, pempty;
    ok, pres := Cpres(g);
    if !ok {
      return;
    }
    ok, pempty := Nullable.Cempty(g);
    if !ok {
      return;
    }
    var pfirst := Cpfir(g, pempty, pres);
    f := Facts(g, pres, pempty[..], Sets(pfirst[..]));
  }

  lemma NothingWritten(ntokens: nat)
    ensures Written([], ntokens, [], [], [])
  {
  }

  /** What is known of the states when the tables are written. */
  datatype States = States(m: Automaton, kernels: seq<seq<Item>>, quiet: seq<bool>)

  /** The rows come from the states: each state's kernel with justified lookaheads, closed,
      settled and compressed. */
  ghost predicate RowsFrom(f: Facts, levprd: seq<nat>, toklev: seq<nat>, s: States, rows: seq<Row>) {
    && |rows| == |s.m.kernels| == |s.kernels| == |s.quiet|
    && forall i :: 0 <= i < |rows| ==> StateRow(f, levprd, toklev, s, rows[i], i)
  }

  ghost predicate StateRow(f: Facts, levprd: seq<nat>, toklev: seq<nat>, s: States, row: Row, i: int)
    requires 0 <= i < |s.m.kernels| == |s.kernels| == |s.quiet|
  {
    && RowFrom(f, levprd, toklev, s.m, i, s.quiet[i], s.kernels[i], row)
    && (s.quiet[i] ==> Collecting.NoEmpties(f.g, s.m.kernels[i])) && Collecting.LooksJust(f.g, s.m, i, s.kernels[i])
  }

  /** The states as they are when output is done. */
  lemma Snapshot(f: Facts, levprd: seq<nat>, toklev: seq<nat>, gen: Generator, rows: seq<Row>) returns (s: States)
    requires gen.Finished() && gen.f == f && |rows| == gen.st.nstate <= |gen.st.tystate|
    requires forall i :: 0 <= i < |rows| ==>
      RowFrom(f, levprd, toklev, gen.st.auto, i, gen.st.tystate[i] != MUSTLOOKAHEAD, gen.st.Kern(i), rows[i])
    ensures s.m == gen.st.auto && RowsFrom(f, levprd, toklev, s, rows) && RowsFit(f.g, s.m, rows)
    ensures forall i :: 0 <= i < |s.kernels| ==> s.kernels[i] == KernAt(gen.st.statemem, gen.st.pstate, i)
  {
    hide RowFrom, IsCollection, WellFormed, Collecting.LooksJust, Collecting.NoEmpties, RowOk, KernAt, FilledUpTo,
      FactsOk;
    gen.FinishedFacts();
    var sm, ps, ty, m := gen.st.statemem, gen.st.pstate, gen.st.tystate, gen.st.auto;
    var n := |rows|;
    s := States(m, seq(n, i requires 0 <= i < n => KernAt(sm, ps, i)),
                seq(n, i requires 0 <= i < n => ty[i] != MUSTLOOKAHEAD));
    forall i | 0 <= i < n
      ensures StateRow(f, levprd, toklev, s, rows[i], i) && RowOk(f.g, m, i, rows[i])
    {
      gen.StateLooks(i);
      MadeRowOk(f, levprd, toklev, m, i, s.quiet[i], s.kernels[i], rows[i]);
    }
  }

  /** The lookaheads in the states are those that spread to their items: the LALR(1) lookaheads. */
  ghost predicate LooksFinal(f: Facts, s: States) {
    |s.kernels| == |s.m.kernels| && forall i, it, t: nat ::
      0 <= i < |s.kernels| && it in s.m.kernels[i] ==> (t in KernLook(s.kernels[i], it) <==> Spreads(f, s.m, i, it, t))
  }

  lemma FinalLooks(f: Facts, now: Rounds.Snap, s: States)
    requires FactsOk(f) && Rounds.Run(f, now) && Rounds.Proper(f.g, now) && Still(now) && NoneMayLose(f.g, now.m)
    requires s.m == now.m && |s.kernels| == |s.m.kernels|
    requires forall i :: 0 <= i < |s.kernels| ==> s.kernels[i] == KernAt(now.sm, now.ps, i)
    ensures LooksFinal(f, s)
  {
    hide Rounds.Run, Rounds.Proper, Still, NoneMayLose, Spreads, KernAt, KernLook;
    forall i, it, t: nat | 0 <= i < |s.kernels| && it in s.m.kernels[i]
      ensures t in KernLook(s.kernels[i], it) <==> Spreads(f, s.m, i, it, t)
    {
      LooksExact(f, now, i, it, t);
      assert Rounds.Look(now, i, it) == KernLook(KernAt(now.sm, now.ps, i), it);
    }
  }

  /** The generator's tables for the states are too small for the grammar: it has more states than
      they hold, or first fit finds no place for the goto row of some state. */
  ghost predicate Overflows(g: Grammar) {
    || (exists m :: TooMany(g, m))
    || exists m, mem, go, i, row :: RowStuck(g, m, mem, go, i, row)
  }

  lemma OverflowsNow(gen: Generator)
    requires gen.Overflow()
    ensures Overflows(gen.f.g)
  {
    hide TooMany, RowStuck;
  }

  /** The tables have room for n states, and the grammar has no more. */
  ghost predicate RoomIn(g: Grammar, n: nat) {
    StatesAtMost(g, n) && n < NSTATES && n * (g.ntokens + 1) + g.nnonter * (n + 1) < ACTSIZE
  }

  /** A condition on the sizes of the grammar and of its LR(0) collection. */
  ghost predicate RoomFor(g: Grammar) {
    exists n: nat :: RoomIn(g, n)
  }

  /** So there is room for every grammar with few enough right-hand side symbols. */
  lemma SmallHasRoom(g: Grammar)
    requires Pow2(|Advanced(g)|) < NSTATES
    requires Pow2(|Advanced(g)|) * (g.ntokens + 1) + g.nnonter * (Pow2(|Advanced(g)|) + 1) < ACTSIZE
    ensures RoomFor(g)
  {
    hide StatesAtMost, Pow2, Advanced;
    StatesBounded(g);
    assert RoomIn(g, Pow2(|Advanced(g)|));
  }

  lemma RoomForRows(g: Grammar, n: nat)
    requires RoomIn(g, n)
    ensures n * g.nnonter <= ACTSIZE
  {
    hide StatesAtMost;
    assert g.nnonter * (n + 1) == n * g.nnonter + g.nnonter;
    assert n * (g.ntokens + 1) >= 0;
  }

  /** A grammar for which there is room does not overflow the tables of stagen. */
  lemma OverflowNeedsRoom(g: Grammar)
    requires Overflows(g)
    ensures !RoomFor(g)
  {
    hide TooMany, RowStuck, StatesAtMost;
    forall n: nat | RoomIn(g, n)
      ensures false
    {
      RoomForRows(g, n);
      if m :| TooMany(g, m) {
        TooManyStates(g, m);
        MoreThan(g, NSTATES - 1, n);
      } else {
        var m, mem, go, i, row :| RowStuck(g, m, mem, go, i, row);
        StuckNeedsRoom(g, m, mem, go, i, row, n);
      }
    }
  }

  lemma MoreThan(g: Grammar, a: int, b: int)
    requires !StatesAtMost(g, a) && b <= a
    ensures !StatesAtMost(g, b)
  {
  }

  lemma StillNow(gen: Generator)
    requires gen.Finished()
    ensures Still(gen.Now()) && Rounds.Proper(gen.f.g, gen.Now())
  {
    hide Rounds.Proper, IsCollection, FilledUpTo;
    gen.NowProper();
  }

  /** stagen and output. */
  method MakeRows(f: Facts, levprd: seq<nat>, toklev: seq<nat>)
    returns (ok: bool, gen: Generator, w: RowWriter, ghost s: States)
    requires FactsOk(f)
    ensures gen.f == f && if ok then gen.Finished() && gen.st.auto == s.m && w.gen == gen else Overflows(f.g)
    ensures ok ==> StatesAtMost(f.g, NSTATES - 1)
    ensures ok ==> Written(w.stateTable, f.g.ntokens, w.defact, w.optst, w.exca)
    ensures ok ==> RowsFrom(f, levprd, toklev, s, w.stateTable) && RowsFit(f.g, s.m, w.stateTable)
    ensures ok && NoneMayLose(f.g, s.m) ==> LooksFinal(f, s)
  {
    hide Generator.Ready, Generator.Overflow, Generator.Finished, Written, RowFrom, FactsOk, Rounds.Run, Rounds.Proper,
      Still, NoneMayLose, LooksFinal, RowsFrom, RowsFit, Overflows, Rounds.Initial,
      StatesAtMost;
    gen := new Generator(f);
    w := new RowWriter(gen, levprd, toklev);
    s := States(Automaton([], []), [], []);
    ok := gen.Stagen();
    if !ok {
      OverflowsNow(gen);
      return;
    }
    NothingWritten(f.g.ntokens);
    StillNow(gen);
    ghost var now := gen.Now();
    w.Output();
    s := Snapshot(f, levprd, toklev, gen, w.stateTable);
    gen.FinishedFacts();
    CollectionCount(f.g, s.m, NSTATES - 1);
    StatesSame(f, levprd, toklev, gen, now, s, w.stateTable);
    if NoneMayLose(f.g, s.m) {
      FinalLooks(f, now, s);
    }
  }

  /** output has not changed the states. */
  lemma StatesSame(f: Facts, levprd: seq<nat>, toklev: seq<nat>, gen: Generator, now: Rounds.Snap, s: States,
                   rows: seq<Row>)
    requires RowsFrom(f, levprd, toklev, s, rows) && |s.m.kernels| == gen.st.nstate
    requires SameKerns(now.sm, now.ps, gen.st.statemem, gen.st.pstate, gen.st.nstate)
    requires forall i :: 0 <= i < |s.kernels| ==> s.kernels[i] == KernAt(gen.st.statemem, gen.st.pstate, i)
    ensures |s.kernels| == |s.m.kernels| && forall i :: 0 <= i < |s.kernels| ==>
      s.kernels[i] == KernAt(now.sm, now.ps, i)
  {
    hide StateRow, KernAt;
  }

  /** The job that is left after go2out. */
  ghost function JobOf(g: Grammar, m: Automaton, w: seq<seq<(int, int)>>, yypgo: seq<Goent>): Job {
    Job(w, yypgo, m.access, g.ntokens, g.nnonter)
  }

  /** Chk, filled from the chains of the states. */
  method ChkTable(gen: Generator) returns (chk: seq<int>)
    requires gen.Finished()
    ensures ChkRight(gen.st.auto.access, chk) && AccessOk(gen.f.g, gen.st.auto.access)
  {
    hide Generator.Finished, FactsOk, Sized, WellFormed, IsCollection, AccessOk, KernelsMatch, Apart;
    gen.FinishedFacts();
    CollectionAccess(gen.f.g, gen.st.auto);
    chk := FillChk(gen.f.g, gen.st.auto.access, gen.st.tstates, gen.st.ntstates, gen.st.mstates, gen.st.nstate);
  }

  /** What callopt is given, and that it may be given it. */
  lemma JobReady(f: Facts, gen: Generator, m: Automaton, rows: seq<Row>, defact: seq<int>, optst: seq<seq<(int, int)>>,
                 exca: seq<(int, int)>, yypgo: seq<Goent>)
    requires RowsFit(f.g, m, rows) && Written(rows, f.g.ntokens, defact, optst, exca) && ColumnsOut(f.g, m, yypgo)
    requires f.g.ntokens < 1000 && f.g.nnonter < 1000
    ensures JobOk(JobOf(f.g, m, optst, yypgo)) && JobFrom(f.g, m, rows, yypgo, JobOf(f.g, m, optst, yypgo))
  {
    hide RowOk, IsCollection, ColumnsOut, JobOk, JobFrom, ExcaTable;
    JobMade(f.g, m, rows, optst, yypgo);
  }

  /** The tables as printed when callopt is done. */
  lemma OptimizerDone(opt: Optimizer, t: Table)
    requires opt.Valid() && Open(opt.tystate, opt.ggreed) == {} && ChkRight(opt.b.access, t.chk)
    requires t.last == opt.maxa + 1 && t.pact == opt.indgo && t.pgo == opt.pgo
    requires 0 <= opt.maxa < opt.amem.Length && t.act == opt.amem[..opt.maxa + 1]
    ensures Printed(opt.b, opt.amem[..], opt.indgo, opt.pgo, opt.ggreed, opt.tystate, opt.maxa, t)
  {
  }

  lemma OptimizerBounds(opt: Optimizer)
    requires opt.Valid()
    ensures 0 <= opt.maxa < opt.amem.Length == ACTSIZE
  {
  }

  /** Some state's shifts or some nonterminal's column find no place in the action array, as the
      placements before them have left it. */
  ghost predicate Unplaceable(g: Grammar, m: Automaton, rows: seq<Row>, placing: Placing) {
    exists yypgo, b, mem, indgo, pgo, ty, gg, top, maxoff ::
      JobFrom(g, m, rows, yypgo, b) && JobOk(b) && Stuck(b, mem, indgo, pgo, ty, gg, top, maxoff, placing)
  }

  /** A grammar for which there is room has all its shifts and columns placed. */
  lemma UnplaceableNeedsRoom(g: Grammar, m: Automaton, rows: seq<Row>, placing: Placing)
    requires RowsFit(g, m, rows) && Unplaceable(g, m, rows, placing)
    ensures !RoomFor(g)
  {
    hide JobFrom, JobOk, Stuck, RowOk, IsCollection, StatesAtMost, Demand;
    var yypgo, b, mem, indgo, pgo, ty, gg, top, maxoff :| JobFrom(g, m, rows, yypgo, b) && JobOk(b) &&
      Stuck(b, mem, indgo, pgo, ty, gg, top, maxoff, placing);
    StuckDemand(b, mem, indgo, pgo, ty, gg, top, maxoff, placing);
    DemandBound(b);
    FromJob(g, m, rows, yypgo, b);
    var k := |m.kernels|;
    assert |rows| == k;
    forall n: nat | RoomIn(g, n)
      ensures false
    {
      CollectionCount(g, m, n);
      TimesMore(k, n, g.ntokens + 1);
      TimesMore(k + 1, n + 1, g.nnonter);
    }
  }

  /** go2out, callopt and others: the rows and the columns become the parser's tables. */
  method Compress(f: Facts, gen: Generator, w: RowWriter, ghost m: Automaton) returns (placing: Placing, t: Table)
    requires gen.Finished() && gen.f == f && gen.st.auto == m && w.gen == gen && f.g.ntokens < 1000
    requires f.g.nnonter < 1000
    requires Written(w.stateTable, f.g.ntokens, w.defact, w.optst, w.exca) && RowsFit(f.g, m, w.stateTable)
    ensures if placing == Placed then Drives(f.g, m, t) && AllDecode(t, w.stateTable, f.g.ntokens)
            else Unplaceable(f.g, m, w.stateTable, placing)
  {
    hide Generator.Finished, Written, RowsFit, StateList.Valid, FactsOk, Sized, IsCollection, WellFormed,
      Optimizer.Valid, JobOk, JobFrom, ColumnsOut, Drives, AllDecode, ChainsOk, AccessOk, RulesRight, Open, ChkRight,
      Printed, Stuck;
    gen.FinishedFacts();
    t := Table([], [], [], [], [], [], [], [], 0);
    var gotos := new GotoWriter(gen);
    gotos.Go2out();
    JobReady(f, gen, m, w.stateTable, w.defact, w.optst, w.exca, gotos.yypgo);
    var opt := new Optimizer(w.optst, gotos.yypgo, f.g.nnonter, JobOf(f.g, m, w.optst, gotos.yypgo));
    OptimizerBounds(opt);
    placing := opt.Callopt();
    if placing != Placed {
      ghost var ty, gg, top :| Stuck(opt.b, opt.amem[..], opt.indgo, opt.pgo, ty, gg, top, opt.maxoff, placing);
      assert JobFrom(f.g, m, w.stateTable, gotos.yypgo, opt.b) && JobOk(opt.b);
      return;
    }
    var chk := ChkTable(gen);
    var r1, r2 := FillRules(f.g);
    OptimizerBounds(opt);
    t := Table(opt.amem[..opt.maxa + 1], opt.indgo, opt.pgo, chk, w.defact, w.exca, r1, r2, opt.maxa + 1);
    OptimizerDone(opt, t);
    TablesDrive(f.g, m, w.stateTable, gotos.yypgo, opt.b, opt.amem[..], opt.indgo, opt.pgo, opt.ggreed, opt.tystate,
                opt.maxa, t, w.optst);
  }

  /** How a run of the generator ends. */
  datatype Made = Tables | Undefined | Overflowed | Unplaced(placing: Placing)

  /** main: from a grammar and its precedences to the tables. When no stage reports an error,
      the tables drive the parser along the LR(0) automaton, and say what the rows say; the rows
      are what the states' LR(1) closures call for; and the lookaheads are the LALR(1)
      lookaheads, unless some state's mark may be lost. */
  method Generate(g: Grammar, levprd: seq<nat>, toklev: seq<nat>)
    returns (made: Made, t: Table, rows: seq<Row>, ghost f: Facts, ghost s: States)
    requires WellFormed(g) && g.ntokens < 1000 && g.nnonter < 1000
    ensures made == Undefined <==> !Meaningful(g)
    ensures made == Overflowed ==> Overflows(g)
    ensures Meaningful(g) && !StatesAtMost(g, NSTATES - 1) ==> made == Overflowed
    ensures Meaningful(g) && RoomFor(g) ==> made == Tables
    ensures made.Unplaced? ==> Unplaceable(g, s.m, rows, made.placing)
    ensures made == Tables ==> Drives(g, s.m, t) && AllDecode(t, rows, g.ntokens)
    ensures made == Tables || made.Unplaced? ==>
      FactsOk(f) && f.g == g && RowsFrom(f, levprd, toklev, s, rows) && RowsFit(g, s.m, rows)
    ensures (made == Tables || made.Unplaced?) && NoneMayLose(g, s.m) ==> LooksFinal(f, s)
  {
    hide Meaningful, Drives, RowsFit, AllDecode, FactsOk, RowsFrom, Written, Generator.Finished, Generator.Overflow,
      Overflows, Unplaceable, LooksFinal, NoneMayLose, RoomFor, StatesAtMost;
    t := Table([], [], [], [], [], [], [], [], 0);
    rows, s := [], States(Automaton([], []), [], []);
    var ok, facts := Analyse(g);
    f := facts;
    if !ok {
      return Undefined, t, rows, f, s;
    }
    var gen, w;
    ok, gen, w, s := MakeRows(facts, levprd, toklev);
    if !ok {
      OverflowNeedsRoom(g);
      return Overflowed, t, rows, f, s;
    }
    rows := w.stateTable;
    var placing;
    placing, t := Compress(facts, gen, w, s.m);
    if placing != Placed {
      UnplaceableNeedsRoom(g, s.m, rows, placing);
    }
    made := if placing == Placed then Tables else Unplaced(placing);
  }

  // ------------------------------------------------------------------ what the tables mean

  /** In a state that has no shift on the token, the tables reduce by the first rule of the
      grammar that the LR(1) closure of the state calls for on it; when it calls for none,
      they do what they do by default. */
  lemma TablesReduce(f: Facts, levprd: seq<nat>, toklev: seq<nat>, s: States, rows: seq<Row>, t: Table, i: nat,
                     token: nat)
    requires RowsFrom(f, levprd, toklev, s, rows) && RowsFit(f.g, s.m, rows) && AllDecode(t, rows, f.g.ntokens)
    requires i < |rows| && 1 <= token <= f.g.ntokens && (token == ENDTOK || !Expects(f.g, s.m, i, token))
    requires !(i == 1 && token == ENDTOK)
    ensures forall r :: Reduces(f, s.kernels[i], r, token) ==> Decode(t, i, token) < 0 && 0 - Decode(t, i, token) <= r
    ensures (exists r :: Reduces(f, s.kernels[i], r, token)) ==>
      Reduces(f, s.kernels[i], 0 - Decode(t, i, token), token)
    ensures (forall r :: !Reduces(f, s.kernels[i], r, token)) ==> Decode(t, i, token) == rows[i].defaultAction
  {
    hide IsCollection, Collecting.NoEmpties, Collecting.LooksJust, Reduces, RowFrom, RowOk, Decode, Expects, WellFormed;
    assert StateRow(f, levprd, toklev, s, rows[i], i) && DecodesAs(t, rows[i], i, token);
    ReductionRow(f, levprd, toklev, s.m, i, s.quiet[i], s.kernels[i], rows[i], token);
  }

  /** With a shift on the token and nothing to reduce, the tables shift; with one reduction
      against the shift, precedence and associativity decide. */
  lemma TablesShift(f: Facts, levprd: seq<nat>, toklev: seq<nat>, s: States, rows: seq<Row>, t: Table, i: nat,
                    token: nat)
    requires RowsFrom(f, levprd, toklev, s, rows) && RowsFit(f.g, s.m, rows) && AllDecode(t, rows, f.g.ntokens)
    requires i < |rows| && ENDTOK < token <= f.g.ntokens && Expects(f.g, s.m, i, token)
    ensures (forall r :: !Reduces(f, s.kernels[i], r, token)) ==> Trans(f.g, s.m, i, token, Decode(t, i, token))
    ensures forall r ::
      Reduces(f, s.kernels[i], r, token) && (forall q :: Reduces(f, s.kernels[i], q, token) ==> q == r) ==>
      Decided(f.g, s.m, i, token, Decode(t, i, token), r, Level(levprd, r), Level(toklev, token))
  {
    hide IsCollection, Collecting.NoEmpties, Collecting.LooksJust, Reduces, RowFrom, RowOk, Decode, Expects, WellFormed,
      Trans, Decided;
    assert StateRow(f, levprd, toklev, s, rows[i], i) && DecodesAs(t, rows[i], i, token);
    if forall r :: !Reduces(f, s.kernels[i], r, token) {
      ShiftRow(f, levprd, toklev, s.m, i, s.quiet[i], s.kernels[i], rows[i], token);
    }
    forall r | Reduces(f, s.kernels[i], r, token) && forall q :: Reduces(f, s.kernels[i], q, token) ==> q == r
      ensures Decided(f.g, s.m, i, token, Decode(t, i, token), r, Level(levprd, r), Level(toklev, token))
    {
      ConflictRow(f, levprd, toklev, s.m, i, s.quiet[i], s.kernels[i], rows[i], token, r);
    }
  }

  /** Every reduction that a closure calls for is right in some sentential form: a path leads
      to the state, and the token can follow the rule's left-hand side there. */
  lemma ReductionJustified(f: Facts, levprd: seq<nat>, toklev: seq<nat>, s: States, rows: seq<Row>, i: nat, r: int,
                           token: nat)
    requires FactsOk(f) && RowsFrom(f, levprd, toklev, s, rows) && RowsFit(f.g, s.m, rows)
    requires i < |rows| && Reduces(f, s.kernels[i], r, token)
    ensures HasRule(f.g, r) && LookaheadMeaning.Justifies(f.g, s.m, i, Lr0(r, |Rhs(f.g, r)|), token)
  {
    hide LookaheadMeaning.Justifies, ClosedMap, Includes, Collecting.LooksJust, ClosureDone, FullRow, DefaultFor,
      DistinctKernels, ClosedUnderGoto, RowOk, FactsOk, HasPredecessor, KernelShape, KernelOk;
    assert StateRow(f, levprd, toklev, s, rows[i], i);
    KernelFromRow(f, levprd, toklev, s.m, i, s.quiet[i], s.kernels[i], rows[i]);
    Collecting.KernelBelowJust(f, s.m, i, s.kernels[i]);
    var map_ := LookaheadMeaning.JustMap(f, s.m, i);
    var it := Lr0(r, |Rhs(f.g, r)|);
    assert it in map_ && token in map_[it];
    assert map_[it] == LookaheadMeaning.JustSet(f, s.m, i, it);
  }

  lemma KernelFromRow(f: Facts, levprd: seq<nat>, toklev: seq<nat>, m: Automaton, i: int, nolook: bool,
                      kernel: seq<Item>, row: Row)
    requires RowFrom(f, levprd, toklev, m, i, nolook, kernel, row)
    ensures 0 <= i < |m.kernels| && m.kernels[i] == KernelSet(kernel) && KernelShape(f.g, kernel)
  {
    hide ClosureDone, FullRow, KernelSet, KernelShape, DefaultFor;
    var ws, gotos, full, lastred :| RowMade(f, levprd, toklev, m, i, nolook, kernel, ws, gotos, full, lastred, row);
  }

  // ------------------------------------------------------------------ the tables of a grammar without conflicts

  /** Lookaheads that spread are in every LR(1) set that is closed and includes the kernel. */
  lemma {:induction false} SpreadInMap(f: Facts, s: States, i: int, it: Lr0, t: nat, n: nat, mp: LookMap)
    requires LooksFinal(f, s) && 0 <= i < |s.kernels| && KernelOk(f.g, s.m.kernels[i])
    requires KernelShape(f.g, s.kernels[i]) && s.m.kernels[i] == KernelSet(s.kernels[i])
    requires ClosedMap(f, mp) && Includes(s.kernels[i], mp) && SpreadsIn(f, s.m, i, it, t, n)
    ensures it in mp && t in mp[it]
    decreases n
  {
    hide InClosure, PassesOn, Introduces, ClosedMap, Spreads, KernLook, KernelOk;
    var kernel := s.kernels[i];
    if it.dot > 0 {
      AdvancedInKernel(f, s.m, i, it, t, n);
      assert it in s.m.kernels[i] && Spreads(f, s.m, i, it, t);
      var k :| 0 <= k < |kernel| && ItemOf(kernel[k].pitem) == it;
      KernLookAt(f.g, kernel, k);
    } else {
      var p := SpreadOnlyWithin(f, s.m, i, it, t, n);
      if t in PassesOn(f, p, {}) {
        assert forall k :: k in s.m.kernels[i] ==> k in mp;
        ClosureInMap(f, s.m.kernels[i], mp, p);
        MapTakes(f, mp, p, it.rule, {}, t);
      } else {
        SpreadInMap(f, s, i, p, t, n - 1, mp);
        MapTakes(f, mp, p, it.rule, {t}, t);
      }
    }
  }

  lemma AdvancedInKernel(f: Facts, m: Automaton, i: int, it: Lr0, t: nat, n: nat)
    requires SpreadsIn(f, m, i, it, t, n) && it.dot > 0
    ensures 0 <= i < |m.kernels| && it in m.kernels[i] && Spreads(f, m, i, it, t)
  {
  }

  /** What the closure of a state calls for is what the LALR(1) lookaheads call for. */
  lemma ReducesIsCalled(f: Facts, levprd: seq<nat>, toklev: seq<nat>, s: States, rows: seq<Row>, i: int, r: nat,
                        token: nat)
    requires FactsOk(f) && RowsFrom(f, levprd, toklev, s, rows) && RowsFit(f.g, s.m, rows) && LooksFinal(f, s)
    requires 0 <= i < |rows| && token <= f.g.ntokens
    ensures Reduces(f, s.kernels[i], r, token) <==> Calls(f, s.m, i, r, token)
  {
    hide ClosedMap, Includes, ClosureDone, FullRow, DefaultFor, ClosedUnderGoto, RowOk, HasPredecessor, KernelShape,
      KernelOk, Spreads, StateRow, FactsOk;
    assert StateRow(f, levprd, toklev, s, rows[i], i);
    StateKernelFacts(f, levprd, toklev, s, rows[i], i);
    FactsSized(f);
    if r > 0 && HasRule(f.g, r) {
      var it := Lr0(r, |Rhs(f.g, r)|);
      if Spreads(f, s.m, i, it, token) {
        SpreadHasLook(f, s, i, it, token);
      }
      if HasLook(f, s.kernels[i], it, token) {
        LookHasSpread(f, s, i, it, token);
      }
    }
  }

  lemma StateKernelFacts(f: Facts, levprd: seq<nat>, toklev: seq<nat>, s: States, row: Row, i: int)
    requires 0 <= i < |s.m.kernels| == |s.kernels| == |s.quiet| && StateRow(f, levprd, toklev, s, row, i)
    ensures s.m.kernels[i] == KernelSet(s.kernels[i]) && KernelShape(f.g, s.kernels[i])
  {
    hide RowFrom, KernelSet, KernelShape, Collecting.NoEmpties, Collecting.LooksJust;
    KernelFromRow(f, levprd, toklev, s.m, i, s.quiet[i], s.kernels[i], row);
  }

  lemma SpreadHasLook(f: Facts, s: States, i: int, it: Lr0, t: nat)
    requires LooksFinal(f, s) && 0 <= i < |s.kernels| && KernelOk(f.g, s.m.kernels[i])
    requires KernelShape(f.g, s.kernels[i]) && s.m.kernels[i] == KernelSet(s.kernels[i]) && Spreads(f, s.m, i, it, t)
    ensures HasLook(f, s.kernels[i], it, t)
  {
    hide LooksFinal, KernelOk, KernelShape, ClosedMap, Includes, SpreadsIn;
    var n: nat :| SpreadsIn(f, s.m, i, it, t, n);
    forall mp: LookMap | ClosedMap(f, mp) && Includes(s.kernels[i], mp)
      ensures it in mp && t in mp[it]
    {
      SpreadInMap(f, s, i, it, t, n, mp);
    }
  }

  lemma LookHasSpread(f: Facts, s: States, i: int, it: Lr0, t: nat)
    requires Sized(f) && LooksFinal(f, s) && 0 <= i < |s.kernels|
    requires KernelShape(f.g, s.kernels[i]) && s.m.kernels[i] == KernelSet(s.kernels[i])
    requires HasLook(f, s.kernels[i], it, t)
    ensures Spreads(f, s.m, i, it, t)
  {
    hide Spreads, InClosure, PassesOn;
    var mp, kernel := SpreadMap(f, s.m, i), s.kernels[i];
    SpreadMapClosed(f, s.m, i);
    forall k | 0 <= k < |kernel|
      ensures ItemOf(kernel[k].pitem) in mp && kernel[k].look <= mp[ItemOf(kernel[k].pitem)]
    {
      var x := ItemOf(kernel[k].pitem);
      assert PitemOk(f.g, kernel[k].pitem);
      assert x in KernelSet(kernel) && x in AllItems(f.g);
      KernelInClosure(f.g, s.m.kernels[i], x);
      KernLookAt(f.g, kernel, k);
    }
    assert Includes(kernel, mp);
    assert it in mp && t in mp[it];
  }

  /** The tables of a grammar without conflicts do what the LALR(1) lookaheads call for. */
  lemma TablesObey(f: Facts, levprd: seq<nat>, toklev: seq<nat>, s: States, rows: seq<Row>, t: Table)
    requires FactsOk(f) && RowsFrom(f, levprd, toklev, s, rows) && RowsFit(f.g, s.m, rows)
    requires AllDecode(t, rows, f.g.ntokens)
    requires LooksFinal(f, s) && ConflictFree(f, s.m)
    ensures Obeys(f, s.m, t)
  {
    hide IsCollection, RowOk, Decode, Expects, WellFormed, Trans, Decided, Calls, Reduces, RowsFrom, LooksFinal,
      AllDecode, StateRow;
    RowsTokens(f, levprd, toklev, s, rows);
    forall i: nat, r: nat, token: nat | i < |s.m.kernels| && token <= f.g.ntokens && Calls(f, s.m, i, r, token)
      ensures Decode(t, i, token) + r == 0
    {
      assert Alone(f, s.m, i, r, token);
      CalledReduces(f, levprd, toklev, s, rows, t, i, r, token);
    }
    forall i: nat, token: nat | i < |s.m.kernels| && ENDTOK < token <= f.g.ntokens && Expects(f.g, s.m, i, token)
      ensures Trans(f.g, s.m, i, token, Decode(t, i, token))
    {
      forall r: int
        ensures !Reduces(f, s.kernels[i], r, token)
      {
        NotCalled(f, levprd, toklev, s, rows, i, r, token);
      }
      TablesShift(f, levprd, toklev, s, rows, t, i, token);
    }
    forall r: int
      ensures !Reduces(f, s.kernels[1], r, ENDTOK)
    {
      NotCalled(f, levprd, toklev, s, rows, 1, r, ENDTOK);
    }
    TablesAccept(f, levprd, toklev, s, rows, t);
  }

  lemma RowsTokens(f: Facts, levprd: seq<nat>, toklev: seq<nat>, s: States, rows: seq<Row>)
    requires RowsFit(f.g, s.m, rows) && RowsFrom(f, levprd, toklev, s, rows)
    ensures ENDTOK <= f.g.ntokens && 1 < |rows| == |s.m.kernels| == |s.kernels|
  {
    hide RowOk, IsCollection, Trans, StateRow;
  }

  lemma CalledReduces(f: Facts, levprd: seq<nat>, toklev: seq<nat>, s: States, rows: seq<Row>, t: Table, i: nat, r: nat,
                      token: nat)
    requires FactsOk(f) && RowsFrom(f, levprd, toklev, s, rows) && RowsFit(f.g, s.m, rows)
    requires AllDecode(t, rows, f.g.ntokens)
    requires LooksFinal(f, s) && i < |rows| && token <= f.g.ntokens && Calls(f, s.m, i, r, token)
    requires Alone(f, s.m, i, r, token)
    ensures Decode(t, i, token) + r == 0
  {
    hide IsCollection, RowOk, Decode, Expects, WellFormed, Calls, Reduces, LooksFinal, AllDecode, StateRow;
    ReducesIsCalled(f, levprd, toklev, s, rows, i, r, token);
    TokenPositive(f, s.m, i, r, token);
    TablesReduce(f, levprd, toklev, s, rows, t, i, token);
    var q := 0 - Decode(t, i, token);
    ReducesIsCalled(f, levprd, toklev, s, rows, i, q, token);
  }

  /** No lookahead is the token 0. */
  lemma TokenPositive(f: Facts, m: Automaton, i: int, r: nat, token: nat)
    requires FactsOk(f) && Calls(f, m, i, r, token)
    ensures token >= 1
  {
    var n: nat :| SpreadsIn(f, m, i, Lr0(r, |Rhs(f.g, r)|), token, n);
    SpreadPositive(f, m, i, Lr0(r, |Rhs(f.g, r)|), token, n);
  }

  lemma {:induction false} SpreadPositive(f: Facts, m: Automaton, i: int, it: Lr0, t: nat, n: nat)
    requires FactsOk(f) && SpreadsIn(f, m, i, it, t, n)
    ensures t >= 1
    decreases n
  {
    hide FactsOk, InClosure, PassesOn, Trans, Introduces;
    if it.dot > 0 {
      SpreadOnlyAcross(f, m, i, it, t, n);
      var h :| Moves(f.g, m, h, it, i) && SpreadsIn(f, m, h, Back(it), t, n - 1);
      SpreadPositive(f, m, h, Back(it), t, n - 1);
    } else {
      var p := SpreadOnlyWithin(f, m, i, it, t, n);
      if t in PassesOn(f, p, {}) {
        PassesPositive(f, p, t);
      } else {
        SpreadPositive(f, m, i, p, t, n - 1);
      }
    }
  }

  lemma PassesPositive(f: Facts, p: Lr0, t: nat)
    requires FactsOk(f) && t in PassesOn(f, p, {})
    ensures t >= 1
  {
    hide FactsOk, RestLook;
    RuleShapeOf(f, p.rule);
    var form := RestOf(f.g, p);
    forall s | s in form
      ensures IsToken(f.g, s) || IsNonter(f.g, s)
    {
      assert s in Rhs(f.g, p.rule);
    }
    RestLookExact(f, form, {}, t);
  }

  lemma RuleShapeOf(f: Facts, r: nat)
    requires FactsOk(f) && HasRule(f.g, r)
    ensures forall s :: s in Rhs(f.g, r) ==> IsToken(f.g, s) || IsNonter(f.g, s)
  {
    RuleShape(f.g, r);
  }

  /** Where a shift or the acceptance stands, no reduction is called for. */
  lemma NotCalled(f: Facts, levprd: seq<nat>, toklev: seq<nat>, s: States, rows: seq<Row>, i: nat, r: int, token: nat)
    requires FactsOk(f) && RowsFrom(f, levprd, toklev, s, rows) && RowsFit(f.g, s.m, rows) && LooksFinal(f, s)
    requires ConflictFree(f, s.m)
    requires i < |rows| && token <= f.g.ntokens
    requires (token > ENDTOK && Expects(f.g, s.m, i, token)) || (i == 1 && token == ENDTOK)
    ensures i < |s.kernels| && !Reduces(f, s.kernels[i], r, token)
  {
    hide IsCollection, RowOk, Expects, WellFormed, Calls, LooksFinal, StateRow, HasLook;
    if r >= 0 {
      ReducesIsCalled(f, levprd, toklev, s, rows, i, r, token);
    }
  }

  lemma TablesAccept(f: Facts, levprd: seq<nat>, toklev: seq<nat>, s: States, rows: seq<Row>, t: Table)
    requires RowsFrom(f, levprd, toklev, s, rows) && RowsFit(f.g, s.m, rows) && AllDecode(t, rows, f.g.ntokens)
    requires 1 < |s.kernels| && forall r :: !Reduces(f, s.kernels[1], r, ENDTOK)
    ensures Decode(t, 1, ENDTOK) == ACCEPTCODE
  {
    hide IsCollection, Collecting.NoEmpties, Collecting.LooksJust, Reduces, RowFrom, RowOk, Decode, Trans;
    assert StateRow(f, levprd, toklev, s, rows[1], 1) && DecodesAs(t, rows[1], 1, ENDTOK);
    AcceptRow(f, levprd, toklev, s.m, s.quiet[1], s.kernels[1], rows[1]);
  }

  // ------------------------------------------------------------------ generator and parser together

  /** In a grammar without LALR(1) conflicts, the parser accepts every sentence when it is given
      enough steps, and rejects none however few it is given. */
  lemma {:induction false} SentencesAccepted(f: Facts, levprd: seq<nat>, toklev: seq<nat>, s: States, rows: seq<Row>,
                                             t: Table, input: seq<nat>) returns (n: nat)
    requires FactsOk(f) && RowsFrom(f, levprd, toklev, s, rows) && RowsFit(f.g, s.m, rows)
    requires AllDecode(t, rows, f.g.ntokens)
    requires Drives(f.g, s.m, t) && LooksFinal(f, s) && ConflictFree(f, s.m) && InputOk(f.g, input)
    requires Derives(f.g, [Start(f.g)], input)
    ensures forall fuel :: fuel >= n ==> RunFor(t, input, Config([0], 0), fuel) == Accepted
    ensures forall fuel :: RunFor(t, input, Config([0], 0), fuel) != Rejected
  {
    hide FactsOk, RowsFrom, RowsFit, AllDecode, Drives, LooksFinal, ConflictFree, Obeys, RunFor, Derives, WellFormed;
    TablesObey(f, levprd, toklev, s, rows, t);
    n := AcceptsSentence(f, s.m, t, input);
    forall fuel
      ensures RunFor(t, input, Config([0], 0), fuel) != Rejected
    {
      NeverRejects(f, s.m, t, input, fuel);
    }
  }

  /** How generator and parser together end. */
  datatype Run = NoTables(made: Made) | Parsed(outcome: Outcome)

  /** The tables of such a grammar decide which inputs are sentences. */
  lemma InputDecided(f: Facts, levprd: seq<nat>, toklev: seq<nat>, s: States, rows: seq<Row>, t: Table,
                     input: seq<nat>)
    requires FactsOk(f) && RowsFrom(f, levprd, toklev, s, rows) && RowsFit(f.g, s.m, rows)
    requires AllDecode(t, rows, f.g.ntokens) && Meaningful(f.g)
    requires Drives(f.g, s.m, t) && LooksFinal(f, s) && ConflictFree(f, s.m) && InputOk(f.g, input)
    ensures Ready(f, s.m, t) && Decides(f.g, t, input)
  {
    hide DecidesFrom, FactsOk, RowsFrom, RowsFit, AllDecode, Drives, LooksFinal, ConflictFree, Obeys, RunFor, Derives,
      WellFormed, Nullable.Productive;
    TablesObey(f, levprd, toklev, s, rows, t);
    RowsCollection(f.g, s.m, rows);
    var n := ParserDecides(f, s.m, t, input);
  }

  /** After some number of steps, and ever after, the parser says whether the input is a sentence. */
  ghost predicate Decides(g: Grammar, t: Table, input: seq<nat>)
    requires WellFormed(g)
  {
    exists n: nat :: DecidesFrom(g, t, input, n)
  }

  /** The parser's place in the input is right: what it has read begins a sentence, and with the
      token that it rejects it does not, when exact holds. */
  ghost predicate PlaceRight(g: Grammar, input: seq<nat>, read: nat, outcome: Outcome, exact: bool)
    requires WellFormed(g)
  {
    && read <= |input| && SentenceBegins(g, input[..read]) && (outcome == Accepted ==> read == |input|)
    && (exact && outcome == Rejected && read < |input| ==> !SentenceBegins(g, input[..read + 1]))
  }

  lemma PlaceBegins(p: Parser, outcome: Outcome)
    requires p.Valid() && Nullable.Productive(p.g) && (outcome == Accepted ==> p.pos == |p.input|)
    ensures WellFormed(p.g) && PlaceRight(p.g, p.input, p.pos, outcome, false)
  {
    hide StackOk, WellFormed, IsCollection, Nullable.Productive, SentenceBegins, TableInside, ExcaOk, RulesRight, Trans,
      ActionFits, GotoFits;
    StackBegins(p.g, p.m, p.states, p.syms, p.trees, p.input[..p.pos]);
  }

  lemma PlaceExact(f: Facts, p: Parser, outcome: Outcome, taken: nat)
    requires p.Valid() && Ready(f, p.m, p.t) && f.g == p.g && (outcome == Accepted ==> p.pos == |p.input|)
    requires StepsTo(p.t, p.input, Config([0], 0), p.Now(), taken)
    requires outcome == Rejected ==> Decode(p.t, p.Top(), TokenAt(p.input, p.pos)) == ERRCODE
    ensures WellFormed(p.g) && PlaceRight(p.g, p.input, p.pos, outcome, true)
  {
    hide Drives, StackOk, WellFormed, IsCollection, Nullable.Productive, SentenceBegins, StepsTo, Decode, FactsOk,
      Obeys;
    PlaceBegins(p, outcome);
    p.TopFits();
    if outcome == Rejected && p.pos < |p.input| {
      ErrorPlace(f, p.m, p.t, p.input, p.Now(), taken);
    }
  }

  lemma MeaningfulProductive(g: Grammar)
    requires Meaningful(g)
    ensures Nullable.Productive(g)
  {
    hide Nullable.Productive, Defined;
  }

  /** goyacc and its parser together. Whatever the parser accepts is in the language of the grammar,
      and what it has read is always the beginning of a sentence. When the grammar has no LALR(1)
      conflict and no lookahead can be lost, the parser comes to an end on every input: it accepts the
      sentences, and rejects everything else, at the first token that no sentence has there. */
  method GenerateAndParse(g: Grammar, levprd: seq<nat>, toklev: seq<nat>, input: seq<nat>, fuel: nat)
    returns (run: Run, ghost f: Facts, ghost s: States, ghost t: Table, ghost read: nat)
    requires WellFormed(g) && g.ntokens < 1000 && g.nnonter < 1000 && InputOk(g, input)
    ensures run == Parsed(Accepted) ==> Derives(g, [Start(g)], input)
    ensures run == Parsed(Rejected) && NoneMayLose(g, s.m) && ConflictFree(f, s.m) ==> !Derives(g, [Start(g)], input)
    ensures run.Parsed? ==> FactsOk(f) && f.g == g && IsCollection(g, s.m) && Drives(g, s.m, t)
    ensures run.Parsed? ==> run.outcome == RunFor(t, input, Config([0], 0), fuel)
    ensures run.Parsed? && NoneMayLose(g, s.m) && ConflictFree(f, s.m) ==> Decides(g, t, input)
    ensures run.Parsed? ==>
      PlaceRight(g, input, read, run.outcome, NoneMayLose(g, s.m) && ConflictFree(f, s.m))
    ensures run == NoTables(Undefined) <==> !Meaningful(g)
    ensures run == NoTables(Overflowed) ==> Overflows(g)
    ensures Meaningful(g) && RoomFor(g) ==> run.Parsed?
  {
    hide Drives, RowsFit, AllDecode, FactsOk, RowsFrom, Parser.Valid, Meaningful, Overflows, Unplaceable, LooksFinal,
      NoneMayLose, ConflictFree, IsCollection, Derives, RunFor, RoomFor, StatesAtMost, StepsTo, Decides,
      PlaceRight, Decode;
    var made, rows;
    read := 0;
    var table;
    made, table, rows, f, s := Generate(g, levprd, toklev);
    t := table;
    if made != Tables {
      return NoTables(made), f, s, t, read;
    }
    RowsCollection(g, s.m, rows);
    MeaningfulProductive(g);
    var parser := new Parser(table, input, g, s.m);
    var outcome, taken := parser.Parse(fuel);
    run, read := Parsed(outcome), parser.pos;
    if NoneMayLose(g, s.m) && ConflictFree(f, s.m) {
      InputDecided(f, levprd, toklev, s, rows, t, input);
      if Derives(g, [Start(g)], input) {
        ghost var n := SentencesAccepted(f, levprd, toklev, s, rows, t, input);
      }
      PlaceExact(f, parser, outcome, taken);
    } else {
      PlaceBegins(parser, outcome);
    }
  }
}
