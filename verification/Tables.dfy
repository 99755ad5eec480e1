/** The tables of the generated parser: Chk, R1 and R2 (others in cmd/goyacc/yacc.go), and
    what the parser reads from all of them. */
module Tables {
  import opened Grammars
  import opened Items
  import opened Kernels
  import opened KernelStore
  import opened Actions
  import opened GotoColumns
  import opened Placement
  import opened Optimizing

  /** Exca is kept in pairs, as the parser steps through it. */
  datatype Table = Table(act: seq<int>, pact: seq<int>, pgo: seq<int>, chk: seq<int>, def: seq<int>,
                         exca: seq<(int, int)>, r1: seq<int>, r2: seq<int>, last: int)

  // ------------------------------------------------------------------ Chk, R1, R2

  /** A state's accessing symbol, nonterminals negated; state 0 has none. */
  function ChkOf(access: seq<int>, j: nat): int
    requires j < |access|
  {
    if j == 0 then -1000 else if access[j] < NTBASE then access[j] else NTBASE - access[j]
  }

  ghost predicate ChkRight(access: seq<int>, chk: seq<int>) {
    |chk| == |access| && forall j :: 0 <= j < |chk| ==> chk[j] == ChkOf(access, j)
  }

  ghost predicate RulesRight(g: Grammar, r1: seq<int>, r2: seq<int>) {
    && |r1| == |r2| == |g.prods|
    && forall r :: 0 < r < |g.prods| ==> HasRule(g, r) && r1[r] == Lhs(g, r) - NTBASE && r2[r] == |Rhs(g, r)|
  }

  /** The walk over one chain: the states entered by symbol c get value v. */
  method FillChain(g: Grammar, ghost access: seq<int>, tstates: seq<int>, ntstates: seq<int>, mstates: seq<int>, c: int,
                   v: int, temp: seq<int>)
    returns (temp1: seq<int>)
    requires ChainsOk(g, access, tstates, ntstates, mstates) && |temp| == |access| > 0 && g.ntokens < NTBASE
    requires 0 <= c <= g.ntokens || NTBASE <= c <= NTBASE + g.nnonter
    ensures |temp1| == |temp| && forall j :: 0 <= j < |temp1| ==>
      temp1[j] == if j > 0 && access[j] == c then v else temp[j]
  {
    hide ChainsOk;
    HeadIsLast(g, access, tstates, ntstates, mstates, c);
    temp1 := temp;
    var j := Head(tstates, ntstates, c);
    while j != 0
      invariant 0 <= j < |access| && (j > 0 ==> access[j] == c) && |temp1| == |temp|
      invariant forall k :: 0 <= k < |temp1| ==> temp1[k] == if k > j && access[k] == c then v else temp[k]
      decreases j
    {
      ChainNext(g, access, tstates, ntstates, mstates, j);
      temp1 := temp1[j := v];
      j := mstates[j];
    }
  }

  /** The symbols that the states are entered by. */
  ghost predicate AccessOk(g: Grammar, access: seq<int>) {
    forall j :: 0 < j < |access| ==> IsUserSymbol(g, access[j])
  }

  lemma CollectionAccess(g: Grammar, m: Automaton)
    requires WellFormed(g) && IsCollection(g, m)
    ensures AccessOk(g, m.access)
  {
    hide Trans, KernelsOk, DistinctKernels, ClosedUnderGoto, InClosure;
    forall j | 0 < j < |m.access|
      ensures IsUserSymbol(g, m.access[j])
    {
      KernelCount(g, m);
      assert HasPredecessor(g, m, j);
      var i :| 0 <= i < j && Trans(g, m, i, m.access[j], j);
      TransSymbol(g, m, i, m.access[j], j);
    }
  }

  lemma KernelCount(g: Grammar, m: Automaton)
    requires IsCollection(g, m)
    ensures |m.kernels| == |m.access|
  {
  }

  lemma TransSymbol(g: Grammar, m: Automaton, i: int, x: int, j: int)
    requires WellFormed(g) && Trans(g, m, i, x, j) && x > ENDTOK
    ensures IsUserSymbol(g, x)
  {
    var it :| it in m.kernels[j];
    assert InGoto(g, m.kernels[i], x, it);
    RuleShape(g, it.rule);
    assert Rhs(g, it.rule)[it.dot - 1] in Rhs(g, it.rule);
  }

  /** The part of others that fills Chk. */
  method FillChk(g: Grammar, ghost access: seq<int>, tstates: seq<int>, ntstates: seq<int>, mstates: seq<int>,
                 nstate: nat)
    returns (chk: seq<int>)
    requires nstate == |access| && ChainsOk(g, access, tstates, ntstates, mstates) && |access| > 0 && g.ntokens < NTBASE
    requires AccessOk(g, access)
    ensures ChkRight(access, chk)
  {
    hide ChainsOk;
    chk := seq(nstate, _ => -1000);
    for i := 0 to g.ntokens + 1
      invariant |chk| == |access|
      invariant forall j :: 0 <= j < |chk| ==> chk[j] == if j > 0 && 0 <= access[j] < i then access[j] else -1000
    {
      chk := FillChain(g, access, tstates, ntstates, mstates, i, i, chk);
    }
    for i := 0 to g.nnonter + 1
      invariant |chk| == |access|
      invariant forall j :: 0 <= j < |chk| ==> (chk[j] ==
        if j > 0 && 0 <= access[j] <= g.ntokens then access[j]
        else if j > 0 && NTBASE <= access[j] < NTBASE + i then NTBASE - access[j] else -1000)
    {
      chk := FillChain(g, access, tstates, ntstates, mstates, NTBASE + i, 0 - i, chk);
    }
  }

  /** hideprod's R1 and the R2 of others. */
  method FillRules(g: Grammar) returns (r1: seq<int>, r2: seq<int>)
    requires WellFormed(g)
    ensures RulesRight(g, r1, r2)
  {
    r1, r2 := [0], [0];
    for i := 1 to |g.prods|
      invariant |r1| == |r2| == i
      invariant forall r :: 0 < r < i ==> HasRule(g, r) && r1[r] == Lhs(g, r) - NTBASE && r2[r] == |Rhs(g, r)|
    {
      RuleShape(g, i);
      r1 := r1 + [g.prods[i][0] - NTBASE];
      r2 := r2 + [|g.prods[i]| - 2];
    }
  }

  // ------------------------------------------------------------------ what the parser looks up

  const NOSHIFT := 0

  /** The shift that the parser finds in state i on a token; 0 when it finds none. */
  function ShiftOf(t: Table, i: nat, token: nat): int {
    if i >= |t.pact| || t.pact[i] <= YYFLAG then NOSHIFT
    else
      var n := t.pact[i] + token;
      if n < 0 || n >= t.last || n >= |t.act| then NOSHIFT
      else
        var s := t.act[n];
        if 0 <= s < |t.chk| && t.chk[s] == token then s else NOSHIFT
  }

  /** The goto that the parser finds for nonterminal c over state i. */
  function GotoOf(t: Table, i: nat, c: nat): int {
    if c >= |t.pgo| || !(0 <= t.pgo[c] < |t.act|) then NOSHIFT
    else
      var j := t.pgo[c] + i + 1;
      if j >= t.last || j >= |t.act| then t.act[t.pgo[c]]
      else
        var s := t.act[j];
        if 0 <= s < |t.chk| && t.chk[s] == 0 - c then s else t.act[t.pgo[c]]
  }

  /** The first loop over the exception table: the header of the state. */
  function FindHeader(exca: seq<(int, int)>, i: nat, k: nat): (h: nat)
    requires k <= |exca|
    ensures k <= h <= |exca|
    decreases |exca| - k
  {
    if k == |exca| || exca[k] == (-1, i as int) then k else FindHeader(exca, i, k + 1)
  }

  /** The second loop: the entry for the token, or the default that closes the list. */
  function FindToken(exca: seq<(int, int)>, token: nat, k: nat): (h: nat)
    requires k <= |exca|
    ensures k <= h <= |exca|
    decreases |exca| - k
  {
    if k == |exca| || exca[k].0 < 0 || exca[k].0 == token then k else FindToken(exca, token, k + 1)
  }

  function Exception(exca: seq<(int, int)>, i: nat, token: nat): int {
    var h := FindHeader(exca, i, 0);
    if h == |exca| then 0
    else
      var k := FindToken(exca, token, h + 1);
      if k == |exca| then 0 else exca[k].1
  }

  /** The code in Def, or in Exca, as an action: accept, error, or a reduction. */
  function ActionOfCode(n: int): int {
    if n < 0 then ACCEPTCODE else if n == 0 then ERRCODE else 0 - n
  }

  /** What the parser does in state i on a token. */
  function Decode(t: Table, i: nat, token: nat): int {
    if ShiftOf(t, i, token) != NOSHIFT then ShiftOf(t, i, token)
    else if i >= |t.def| then ERRCODE
    else ActionOfCode(if t.def[i] == -2 then Exception(t.exca, i, token) else t.def[i])
  }

  // ------------------------------------------------------------------ exceptions

  /** Row i's block lies at k, and no header of it before. */
  ghost predicate BlockAt(exca: seq<(int, int)>, i: nat, row: Row, ntokens: nat, k: nat)
    requires ntokens < |row.actions|
  {
    && k + |Block(i, row, ntokens)| <= |exca| && exca[k..k + |Block(i, row, ntokens)|] == Block(i, row, ntokens)
    && forall h :: 0 <= h < k ==> exca[h] != (-1, i as int)
  }

  lemma {:induction false} HeadersBelow(rows: seq<Row>, ntokens: nat, x: int)
    requires WideRows(rows, ntokens)
    ensures (-1, x) in ExcaTable(rows, ntokens) ==> 0 <= x < |rows|
  {
    hide Exceptions, IsShift, ExcaCode;
    if rows != [] {
      var n := |rows| - 1;
      HeadersBelow(rows[..n], ntokens, x);
      ExceptionsExact(rows[n].actions, ntokens + 1, -1, x);
    }
  }

  lemma {:induction false} BlockFound(rows: seq<Row>, ntokens: nat, i: nat) returns (k: nat)
    requires WideRows(rows, ntokens) && i < |rows|
    ensures BlockAt(ExcaTable(rows, ntokens), i, rows[i], ntokens, k)
  {
    hide Exceptions, Lastred, Block, BlockAt;
    var n := |rows| - 1;
    var before := ExcaTable(rows[..n], ntokens);
    var block := Block(n, rows[n], ntokens);
    if i == n {
      k := |before|;
      HeadersBelow(rows[..n], ntokens, n);
      BlockLast(before, i, rows[i], ntokens);
    } else {
      k := BlockFound(rows[..n], ntokens, i);
      BlockStays(before, block, i, rows[i], ntokens, k);
    }
  }

  lemma BlockLast(before: seq<(int, int)>, i: nat, row: Row, ntokens: nat)
    requires ntokens < |row.actions| && (-1, i as int) !in before
    ensures BlockAt(before + Block(i, row, ntokens), i, row, ntokens, |before|)
  {
    hide Block;
  }

  lemma BlockStays(before: seq<(int, int)>, more: seq<(int, int)>, i: nat, row: Row, ntokens: nat, k: nat)
    requires ntokens < |row.actions| && BlockAt(before, i, row, ntokens, k)
    ensures BlockAt(before + more, i, row, ntokens, k)
  {
    hide Block;
    var own := Block(i, row, ntokens);
    assert (before + more)[k..k + |own|] == before[k..k + |own|];
  }

  lemma {:induction false} HeaderIs(exca: seq<(int, int)>, i: nat, k: nat, from: nat)
    requires from <= k < |exca| && exca[k] == (-1, i as int) && forall h :: 0 <= h < k ==> exca[h] != (-1, i as int)
    ensures FindHeader(exca, i, from) == k
    decreases k - from
  {
    if from < k {
      HeaderIs(exca, i, k, from + 1);
    }
  }

  /** From position k + 1 the list is searched in order; keys are not negative until its end. */
  lemma {:induction false} TokenIs(exca: seq<(int, int)>, token: nat, at: nat, from: nat)
    requires from <= at < |exca| && (exca[at].0 < 0 || exca[at].0 == token)
    requires forall h :: from <= h < at ==> exca[h].0 >= 0 && exca[h].0 != token
    ensures FindToken(exca, token, from) == at
    decreases at - from
  {
    if from < at {
      TokenIs(exca, token, at, from + 1);
    }
  }

  /** The cells of a block: header, exceptions, default. */
  lemma BlockCells(exca: seq<(int, int)>, i: nat, row: Row, ntokens: nat, k: nat)
    requires ntokens < |row.actions| && BlockAt(exca, i, row, ntokens, k) && Exceptions(row.actions, ntokens + 1) != []
    ensures var exc := Exceptions(row.actions, ntokens + 1);
      && k + 1 + |exc| < |exca| && exca[k] == (-1, i as int) && exca[k + 1 + |exc|] == (-2, Lastred(row))
      && exca[k + 1..k + 1 + |exc|] == exc
  {
    hide Exceptions;
    var exc := Exceptions(row.actions, ntokens + 1);
    var block := Block(i, row, ntokens);
    assert block == [(-1, i as int)] + exc + [(-2, Lastred(row))];
    assert block[0] == exca[k..k + |block|][0];
    assert block[|exc| + 1] == exca[k..k + |block|][|exc| + 1];
    forall h | 0 <= h < |exc|
      ensures exca[k + 1..k + 1 + |exc|][h] == exc[h]
    {
      assert exca[k..k + |block|][1 + h] == block[1 + h] == exc[h];
    }
  }

  ghost predicate Lists(pairs: seq<(int, int)>, k: int, v: int) {
    (k, v) in pairs
  }

  /** The search for a token in a list that ends with a negative key. */
  lemma ListRead(exca: seq<(int, int)>, exc: seq<(int, int)>, n: int, k: nat, token: nat)
    requires Increasing(exc, n) && k + |exc| < |exca| && exca[k..k + |exc|] == exc && exca[k + |exc|].0 < 0
    ensures var h := FindToken(exca, token, k);
      && h < |exca|
      && (forall v :: Lists(exc, token, v) ==> exca[h].1 == v)
      && ((forall v :: !Lists(exc, token, v)) ==> h == k + |exc|)
  {
    assert forall x :: k <= x < k + |exc| ==> exca[x] == exc[x - k];
    if h :| 0 <= h < |exc| && exc[h].0 == token {
      TokenIs(exca, token, k + h, k);
      assert exc[h] == (token as int, exc[h].1) && Lists(exc, token, exc[h].1);
    } else {
      TokenIs(exca, token, k + |exc|, k);
    }
  }

  /** The exception table gives every token's own entry, or the default reduction. */
  lemma ExceptionRead(rows: seq<Row>, ntokens: nat, i: nat, token: nat)
    requires WideRows(rows, ntokens) && i < |rows| && token <= ntokens && Exceptions(rows[i].actions, ntokens + 1) != []
    ensures var a := rows[i].actions[token];
      Exception(ExcaTable(rows, ntokens), i, token) == if a != 0 && !IsShift(a) then ExcaCode(a) else Lastred(rows[i])
  {
    hide Exceptions, ExcaTable, IsShift, ExcaCode, BlockAt;
    var exca, row := ExcaTable(rows, ntokens), rows[i];
    var exc, a := Exceptions(row.actions, ntokens + 1), row.actions[token];
    var k := BlockFound(rows, ntokens, i);
    BlockCells(exca, i, row, ntokens, k);
    NoHeaderBefore(exca, i, row, ntokens, k);
    HeaderIs(exca, i, k, 0);
    ExceptionsExact(row.actions, ntokens + 1, token, 0);
    ListRead(exca, exc, ntokens + 1, k + 1, token);
    forall v
      ensures Lists(exc, token, v) <==> a != 0 && !IsShift(a) && v == ExcaCode(a)
    {
      ExceptionsExact(row.actions, ntokens + 1, token, v);
    }
    assert a != 0 && !IsShift(a) ==> Lists(exc, token, ExcaCode(a));
  }

  lemma NoHeaderBefore(exca: seq<(int, int)>, i: nat, row: Row, ntokens: nat, k: nat)
    requires ntokens < |row.actions| && BlockAt(exca, i, row, ntokens, k)
    ensures forall h :: 0 <= h < k && h < |exca| ==> exca[h] != (-1, i as int)
  {
  }

  // ------------------------------------------------------------------ the tables decode

  /** The job that the rows and the goto columns make. */
  ghost predicate JobFrom(g: Grammar, m: Automaton, rows: seq<Row>, yypgo: seq<Goent>, b: Job) {
    && b.access == m.access && b.ntokens == g.ntokens && b.nnonter == g.nnonter && b.yypgo == yypgo
    && ColumnsOut(g, m, yypgo)
    && WideRows(rows, g.ntokens) && |b.optst| == |rows| == |m.kernels|
    && forall i :: 0 <= i < |rows| ==> b.optst[i] == Shifts(rows[i].actions, g.ntokens + 1)
  }

  /** The array, the offsets and Chk as they are printed. */
  ghost predicate Printed(b: Job, mem: seq<int>, indgo: seq<int>, pgo: seq<int>, ggreed: seq<int>, tystate: seq<int>,
                          maxa: int, t: Table) {
    && JobOk(b) && Layout(b, mem, indgo, pgo, ggreed) && Queued(b, tystate, ggreed, indgo)
    && Open(tystate, ggreed) == {}
    && Bounded(mem, pgo, ggreed, maxa)
    && t.last == maxa + 1 && t.act == mem[..maxa + 1] && t.pact == indgo && t.pgo == pgo && ChkRight(b.access, t.chk)
  }

  /** A cell of the array is a state, so Chk may be asked about it. */
  lemma CellIsState(b: Job, mem: seq<int>, indgo: seq<int>, pgo: seq<int>, ggreed: seq<int>, q: nat)
    requires JobOk(b) && Layout(b, mem, indgo, pgo, ggreed) && q < |mem|
    ensures 0 <= mem[q] < |b.access|
  {
    assert Explained(b, mem, indgo, pgo, ggreed, q);
    var v := mem[q];
    if ByShift(b, indgo, q, v) {
      var k, r :| 0 <= k < |b.optst| && 0 <= r < |b.optst[k]| && v == b.optst[k][r].1;
      JobShifts(b, k);
      assert EnteredOn(b, b.optst[k][r].1, b.optst[k][r].0);
    } else if ByDefault(b, pgo, ggreed, q, v) {
      var c: nat :| 1 <= c <= b.nnonter && v == b.yypgo[c].best;
      JobGotos(b, c);
    } else if ByGoto(b, pgo, ggreed, q, v) {
      var c: nat, r :| 1 <= c <= b.nnonter && 0 <= r < |b.yypgo[c].pairs| && v == b.yypgo[c].pairs[r].1;
      JobGotos(b, c);
      assert EnteredOn(b, b.yypgo[c].pairs[r].1, NTBASE + c);
    }
  }

  /** The parser finds the row's shift, and no other. */
  lemma DecodeShift(g: Grammar, b: Job, mem: seq<int>, indgo: seq<int>, pgo: seq<int>, ggreed: seq<int>,
                    tystate: seq<int>, maxa: int, t: Table, row: Row, i: nat, token: nat)
    requires Printed(b, mem, indgo, pgo, ggreed, tystate, maxa, t) && AccessOk(g, b.access) && g.ntokens == b.ntokens
    requires i < |b.optst| && token <= b.ntokens < |row.actions| && b.optst[i] == Shifts(row.actions, b.ntokens + 1)
    ensures ShiftOf(t, i, token) == if IsShift(row.actions[token]) then row.actions[token] else NOSHIFT
  {
    hide Layout, JobOk, Queued, Shifts, IsShift, ChkRight, Open, Explained;
    var a := row.actions[token];
    PrintedSizes(b, mem, indgo, pgo, ggreed, tystate, maxa, t);
    StatePlaced(b, tystate, ggreed, indgo, i);
    ShiftsExact(row.actions, b.ntokens + 1, token, a);
    if indgo[i] != YYFLAG {
      LaidShift(b, mem, indgo, pgo, ggreed, i);
      var n := indgo[i] + token;
      if IsShift(a) {
        var r :| 0 <= r < |b.optst[i]| && b.optst[i][r] == (token as int, a);
        assert CellIs(mem, b.optst[i][r].0 + indgo[i], a);
        ShiftEntered(b, i, r);
        ChkToken(g, b, t.chk, a, token);
      } else if 0 <= n <= maxa {
        CellIsState(b, mem, indgo, pgo, ggreed, n);
        ChkToken(g, b, t.chk, mem[n], token);
        if EnteredOn(b, mem[n], token) {
          ShiftIsOwn(b, mem, indgo, pgo, ggreed, i, token);
          ShiftsExact(row.actions, b.ntokens + 1, token, mem[n]);
        }
      }
    } else {
      NoShifts(row, b.ntokens, token);
    }
  }

  lemma PrintedSizes(b: Job, mem: seq<int>, indgo: seq<int>, pgo: seq<int>, ggreed: seq<int>, tystate: seq<int>,
                     maxa: int, t: Table)
    requires Printed(b, mem, indgo, pgo, ggreed, tystate, maxa, t)
    ensures |indgo| == |b.optst| == |tystate| == |b.access| == |t.chk|
    ensures |pgo| == |ggreed| == |b.yypgo| == b.nnonter + 1
    ensures 0 <= maxa < |mem| && |b.access| < NSTATES && b.ntokens < 1000 && b.nnonter < 1000
    ensures forall k :: 0 <= k < |indgo| ==> indgo[k] >= YYFLAG
  {
    forall k | 0 <= k < |indgo|
      ensures indgo[k] >= YYFLAG
    {
      assert StateLaid(b, mem, indgo, k);
    }
  }

  lemma StatePlaced(b: Job, tystate: seq<int>, ggreed: seq<int>, indgo: seq<int>, i: nat)
    requires Queued(b, tystate, ggreed, indgo) && Open(tystate, ggreed) == {} && i < |b.optst|
    ensures indgo[i] == YYFLAG ==> b.optst[i] == []
  {
    assert StateQueued(b, tystate, indgo, i);
    assert tystate[i] > 0 ==> i in Open(tystate, ggreed);
  }

  lemma LaidShift(b: Job, mem: seq<int>, indgo: seq<int>, pgo: seq<int>, ggreed: seq<int>, i: nat)
    requires Layout(b, mem, indgo, pgo, ggreed) && i < |b.optst| && indgo[i] != YYFLAG
    ensures ShiftsAt(mem, b.optst[i], indgo[i])
  {
    assert StateLaid(b, mem, indgo, i);
  }

  lemma ShiftEntered(b: Job, i: nat, r: nat)
    requires JobOk(b) && i < |b.optst| && r < |b.optst[i]|
    ensures EnteredOn(b, b.optst[i][r].1, b.optst[i][r].0)
  {
    JobShifts(b, i);
  }

  lemma ChkToken(g: Grammar, b: Job, chk: seq<int>, s: int, token: nat)
    requires JobOk(b) && ChkRight(b.access, chk) && AccessOk(g, b.access) && g.ntokens == b.ntokens
    requires 0 <= s < |b.access| && token <= b.ntokens
    ensures chk[s] == token <==> EnteredOn(b, s, token)
  {
  }

  lemma NoShifts(row: Row, ntokens: nat, token: nat)
    requires token <= ntokens < |row.actions| && Shifts(row.actions, ntokens + 1) == []
    ensures !IsShift(row.actions[token])
  {
    ShiftsExact(row.actions, ntokens + 1, token, row.actions[token]);
  }

  lemma ChkNonterminal(g: Grammar, b: Job, chk: seq<int>, s: int, c: nat)
    requires JobOk(b) && ChkRight(b.access, chk) && AccessOk(g, b.access) && g.ntokens == b.ntokens
    requires 0 <= s < |b.access| && 1 <= c <= b.nnonter
    ensures chk[s] == 0 - c <==> EnteredOn(b, s, NTBASE + c)
  {
  }

  /** Every goto that a state needs is found: the column's own entry, or the default when the
      column has none. */
  lemma DecodeGoto(g: Grammar, b: Job, mem: seq<int>, indgo: seq<int>, pgo: seq<int>, ggreed: seq<int>,
                   tystate: seq<int>, maxa: int, t: Table, col: seq<int>, i: nat, c: nat)
    requires Printed(b, mem, indgo, pgo, ggreed, tystate, maxa, t) && AccessOk(g, b.access) && g.ntokens == b.ntokens
    requires 1 <= c <= b.nnonter && c < |b.yypgo| && Compressed(col, b.yypgo[c]) && i < |col| && col[i] > 0
    ensures GotoOf(t, i, c) == col[i]
  {
    hide Layout, JobOk, Queued, ChkRight, Open, Explained, Compressed, Gives, GotoPairs;
    PrintedSizes(b, mem, indgo, pgo, ggreed, tystate, maxa, t);
    ColumnPlaced(b, mem, indgo, pgo, ggreed, tystate, maxa, c);
    var e := b.yypgo[c];
    var p := pgo[c];
    var j := p + i + 1;
    if (i as int, col[i]) in e.pairs {
      var r :| 0 <= r < |e.pairs| && e.pairs[r] == (i as int, col[i]);
      assert CellIs(mem, p + e.pairs[r].0 + 1, col[i]) && mem[j] == col[i];
      GotoEntered(b, c, r);
      ChkNonterminal(g, b, t.chk, col[i], c);
    } else {
      NotListed(col, e, i);
      assert CellIs(mem, p, e.best);
      if j <= maxa {
        CellIsState(b, mem, indgo, pgo, ggreed, j);
        ChkNonterminal(g, b, t.chk, mem[j], c);
        assert !Lists(e.pairs, i, mem[j]);
        if EnteredOn(b, mem[j], NTBASE + c) {
          GotoIsOwn(b, mem, indgo, pgo, ggreed, c, i);
        }
      }
    }
  }

  /** A state's goto that is not listed is the default, and then nothing is listed. */
  lemma NotListed(col: seq<int>, e: Goent, i: nat)
    requires Compressed(col, e) && i < |col| && col[i] > 0 && (i as int, col[i]) !in e.pairs
    ensures e.best == col[i] && forall w :: !Lists(e.pairs, i, w)
  {
    CompressionKeeps(col, e, i, col[i]);
    forall w
      ensures !Lists(e.pairs, i, w)
    {
      GotoPairsExact(col, e.best, |col|, i, w);
    }
  }

  lemma GotoEntered(b: Job, c: nat, r: nat)
    requires JobOk(b) && 1 <= c <= b.nnonter && c < |b.yypgo| && r < |b.yypgo[c].pairs|
    ensures EnteredOn(b, b.yypgo[c].pairs[r].1, NTBASE + c)
  {
    JobGotos(b, c);
  }

  lemma ColumnPlaced(b: Job, mem: seq<int>, indgo: seq<int>, pgo: seq<int>, ggreed: seq<int>, tystate: seq<int>,
                     maxa: int, c: nat)
    requires JobOk(b) && Layout(b, mem, indgo, pgo, ggreed) && Queued(b, tystate, ggreed, indgo)
    requires Open(tystate, ggreed) == {}
    requires Bounded(mem, pgo, ggreed, maxa) && 1 <= c <= b.nnonter
    ensures ggreed[c] == 0 && 0 <= pgo[c] <= maxa && GotosRead(mem, b.yypgo[c], pgo[c])
  {
    assert ggreed[c] > 0 ==> 0 - c in Open(tystate, ggreed);
    assert ColumnLaid(b, mem, pgo, ggreed, c);
  }

  /** The compressed tables say of every state and token what the state's row says. */
  lemma DecodeAction(g: Grammar, m: Automaton, rows: seq<Row>, yypgo: seq<Goent>, b: Job, mem: seq<int>,
                     indgo: seq<int>, pgo: seq<int>, ggreed: seq<int>, tystate: seq<int>, maxa: int, t: Table,
                     optst: seq<seq<(int, int)>>, i: nat, token: nat)
    requires Printed(b, mem, indgo, pgo, ggreed, tystate, maxa, t) && AccessOk(g, b.access)
    requires JobFrom(g, m, rows, yypgo, b)
    requires Written(rows, g.ntokens, t.def, optst, t.exca) && i < |rows| && token <= g.ntokens && RowSigns(rows[i])
    ensures Decode(t, i, token) == RowAction(rows[i], token)
  {
    hide Printed, Exceptions, ColumnsOut, Block, Exception, ShiftOf, ExcaTable;
    var row := rows[i];
    var a := row.actions[token];
    DecodeShift(g, b, mem, indgo, pgo, ggreed, tystate, maxa, t, row, i, token);
    ExceptionsExact(row.actions, g.ntokens + 1, token, ExcaCode(a));
    if Exceptions(row.actions, g.ntokens + 1) != [] {
      ExceptionRead(rows, g.ntokens, i, token);
    }
  }

  /** The default of a row is an error or a reduction. */
  ghost predicate RowSigns(row: Row) {
    row.defaultAction == ERRCODE || row.defaultAction < 0
  }
}
