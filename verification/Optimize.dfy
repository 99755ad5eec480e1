/** Shifts and gotos are laid into one array (callopt, nxti, gin, stin in
    cmd/goyacc/yacc.go). Module Placement says what the layout keeps, module Spans how much
    room it takes, module Optimizing makes it. */
module Placement {
  import opened Grammars
  import opened KernelStore
  import opened Actions
  import opened GotoColumns

  const YYFLAG := -1000
  const NOMORE := -1000

  /** What callopt is given: each state's shifts, each nonterminal's compressed goto column,
      and the symbol each state is entered by. */
  datatype Job = Job(optst: seq<seq<(int, int)>>, yypgo: seq<Goent>, access: seq<int>, ntokens: nat, nnonter: nat)

  /** s is a state entered by symbol x. */
  ghost predicate EnteredOn(b: Job, s: int, x: int) {
    0 < s < |b.access| && b.access[s] == x
  }

  ghost predicate ShiftsOk(b: Job, pairs: seq<(int, int)>) {
    Increasing(pairs, b.ntokens + 1) && forall r :: 0 <= r < |pairs| ==> EnteredOn(b, pairs[r].1, pairs[r].0)
  }

  ghost predicate GotosOk(b: Job, c: nat, e: Goent) {
    && Increasing(e.pairs, |b.optst|) && (e.best == 0 || EnteredOn(b, e.best, NTBASE + c))
    && forall r :: 0 <= r < |e.pairs| ==> EnteredOn(b, e.pairs[r].1, NTBASE + c)
  }

  /** The numbers of tokens and nonterminals stay clear of the marks -1000, and no state but the
      first is entered by $end. */
  ghost predicate JobOk(b: Job) {
    && (forall k :: 0 < k < |b.access| ==> b.access[k] > ENDTOK)
    && 0 < |b.optst| == |b.access| < NSTATES && |b.yypgo| == b.nnonter + 1 && b.ntokens < 1000 && b.nnonter < 1000
    && (forall k :: 0 <= k < |b.optst| ==> ShiftsOk(b, b.optst[k]))
    && forall c: nat :: 1 <= c <= b.nnonter ==> GotosOk(b, c, b.yypgo[c])
  }

  // ------------------------------------------------------------------ the layout

  ghost predicate CellIs(mem: seq<int>, q: int, v: int) {
    0 <= q < |mem| && mem[q] == v
  }

  /** The shifts can be read at n. */
  ghost predicate ShiftsAt(mem: seq<int>, pairs: seq<(int, int)>, n: int) {
    forall r :: 0 <= r < |pairs| ==> CellIs(mem, pairs[r].0 + n, pairs[r].1)
  }

  /** The gotos can be read at p: first the default, then the column. An empty default
      leaves its cell to others. */
  ghost predicate GotosRead(mem: seq<int>, e: Goent, p: int) {
    && (e.best != 0 ==> CellIs(mem, p, e.best))
    && forall r :: 0 <= r < |e.pairs| ==> CellIs(mem, p + e.pairs[r].0 + 1, e.pairs[r].1)
  }

  ghost predicate ByShift(b: Job, indgo: seq<int>, q: int, v: int) {
    exists k, r :: 0 <= k < |b.optst| && k < |indgo| && indgo[k] != YYFLAG && 0 <= r < |b.optst[k]| &&
      q == b.optst[k][r].0 + indgo[k] && v == b.optst[k][r].1
  }

  ghost predicate ByDefault(b: Job, pgo: seq<int>, ggreed: seq<int>, q: int, v: int) {
    exists c: nat ::
      1 <= c <= b.nnonter && c < |b.yypgo| && c < |pgo| && c < |ggreed| && ggreed[c] == 0 && q == pgo[c] &&
        v == b.yypgo[c].best
  }

  ghost predicate ByGoto(b: Job, pgo: seq<int>, ggreed: seq<int>, q: int, v: int) {
    exists c: nat, r :: 1 <= c <= b.nnonter && c < |b.yypgo| && c < |pgo| && c < |ggreed| && ggreed[c] == 0 &&
      0 <= r < |b.yypgo[c].pairs| && q == pgo[c] + b.yypgo[c].pairs[r].0 + 1 && v == b.yypgo[c].pairs[r].1
  }

  /** A cell in use holds a shift or a goto that has been placed there. */
  ghost predicate Explained(b: Job, mem: seq<int>, indgo: seq<int>, pgo: seq<int>, ggreed: seq<int>, q: int)
    requires 0 <= q < |mem|
  {
    mem[q] == 0 || ByShift(b, indgo, q, mem[q]) || ByDefault(b, pgo, ggreed, q, mem[q]) ||
      ByGoto(b, pgo, ggreed, q, mem[q])
  }

  ghost predicate StateLaid(b: Job, mem: seq<int>, indgo: seq<int>, k: int)
    requires 0 <= k < |indgo| == |b.optst|
  {
    indgo[k] != YYFLAG ==> indgo[k] > YYFLAG && ShiftsAt(mem, b.optst[k], indgo[k])
  }

  ghost predicate ColumnLaid(b: Job, mem: seq<int>, pgo: seq<int>, ggreed: seq<int>, c: nat)
    requires 1 <= c <= b.nnonter && |pgo| == |ggreed| == |b.yypgo| == b.nnonter + 1
  {
    ggreed[c] == 0 ==> 0 <= pgo[c] < |mem| && GotosRead(mem, b.yypgo[c], pgo[c])
  }

  /** Two states lie at one place only if their shifts are the same. */
  ghost predicate SharedAlike(b: Job, indgo: seq<int>)
    requires |indgo| == |b.optst|
  {
    forall j, k :: 0 <= j < |indgo| && 0 <= k < |indgo| && indgo[j] == indgo[k] && indgo[j] != YYFLAG ==>
      b.optst[j] == b.optst[k]
  }

  ghost predicate Layout(b: Job, mem: seq<int>, indgo: seq<int>, pgo: seq<int>, ggreed: seq<int>) {
    && |indgo| == |b.optst| && |pgo| == |ggreed| == |b.yypgo| == b.nnonter + 1
    && (forall k :: 0 <= k < |indgo| ==> StateLaid(b, mem, indgo, k))
    && (forall c: nat :: 1 <= c <= b.nnonter ==> ColumnLaid(b, mem, pgo, ggreed, c))
    && SharedAlike(b, indgo)
    && forall q :: 0 <= q < |mem| ==> Explained(b, mem, indgo, pgo, ggreed, q)
  }

  // ------------------------------------------------------------------ reading it back

  /** The parser takes the entry of a cell for a shift only if the state it shifts to is
      entered by the token; then the shift is the state's own. */
  lemma ShiftIsOwn(b: Job, mem: seq<int>, indgo: seq<int>, pgo: seq<int>, ggreed: seq<int>, i: nat, t: int)
    requires JobOk(b) && Layout(b, mem, indgo, pgo, ggreed) && i < |indgo| && indgo[i] != YYFLAG
    requires 0 <= t <= b.ntokens && 0 <= indgo[i] + t < |mem| && EnteredOn(b, mem[indgo[i] + t], t)
    ensures (t, mem[indgo[i] + t]) in b.optst[i]
  {
    var q := indgo[i] + t;
    var s := mem[q];
    assert Explained(b, mem, indgo, pgo, ggreed, q);
    if ByShift(b, indgo, q, s) {
      var k, r :| 0 <= k < |b.optst| && indgo[k] != YYFLAG && 0 <= r < |b.optst[k]| &&
        q == b.optst[k][r].0 + indgo[k] && s == b.optst[k][r].1;
      assert ShiftsOk(b, b.optst[k]) && EnteredOn(b, b.optst[k][r].1, b.optst[k][r].0);
      assert b.optst[k] == b.optst[i];
      assert b.optst[i][r] == (t, s);
    } else {
      NotByGoto(b, pgo, ggreed, q, s, t);
    }
  }

  /** A cell that belongs to a goto column holds a state entered by a nonterminal. */
  lemma NotByGoto(b: Job, pgo: seq<int>, ggreed: seq<int>, q: int, s: int, t: int)
    requires JobOk(b) && EnteredOn(b, s, t) && t <= b.ntokens
    ensures !ByDefault(b, pgo, ggreed, q, s) && !ByGoto(b, pgo, ggreed, q, s)
  {
    forall c: nat | 1 <= c <= b.nnonter
      ensures b.yypgo[c].best != s && forall r :: 0 <= r < |b.yypgo[c].pairs| ==> b.yypgo[c].pairs[r].1 != s
    {
      assert GotosOk(b, c, b.yypgo[c]);
      forall r | 0 <= r < |b.yypgo[c].pairs|
        ensures b.yypgo[c].pairs[r].1 != s
      {
        assert EnteredOn(b, b.yypgo[c].pairs[r].1, NTBASE + c);
      }
    }
  }

  /** Likewise for gotos: a state found in the column that is entered by the nonterminal is the
      column's own entry, so a missing entry is never mistaken for another one. */
  lemma GotoIsOwn(b: Job, mem: seq<int>, indgo: seq<int>, pgo: seq<int>, ggreed: seq<int>, c: nat, i: nat)
    requires JobOk(b) && Layout(b, mem, indgo, pgo, ggreed) && 1 <= c <= b.nnonter && ggreed[c] == 0
    requires pgo[c] + i + 1 < |mem| && pgo[c] >= 0 && EnteredOn(b, mem[pgo[c] + i + 1], NTBASE + c)
    ensures (i, mem[pgo[c] + i + 1]) in b.yypgo[c].pairs
  {
    var q := pgo[c] + i + 1;
    var s := mem[q];
    assert Explained(b, mem, indgo, pgo, ggreed, q);
    NotByShift(b, indgo, q, s, c);
    NotByDefault(b, pgo, ggreed, q, s, c);
    var d: nat, r :| 1 <= d <= b.nnonter && ggreed[d] == 0 && 0 <= r < |b.yypgo[d].pairs| &&
      q == pgo[d] + b.yypgo[d].pairs[r].0 + 1 && s == b.yypgo[d].pairs[r].1;
    assert GotosOk(b, d, b.yypgo[d]) && EnteredOn(b, b.yypgo[d].pairs[r].1, NTBASE + d);
    assert b.yypgo[c].pairs[r] == (i as int, s);
  }

  lemma NotByDefault(b: Job, pgo: seq<int>, ggreed: seq<int>, q: int, s: int, c: nat)
    requires JobOk(b) && EnteredOn(b, s, NTBASE + c) && 1 <= c <= b.nnonter && c < |pgo| && q != pgo[c]
    ensures !ByDefault(b, pgo, ggreed, q, s)
  {
    forall d: nat | 1 <= d <= b.nnonter && b.yypgo[d].best == s
      ensures d == c
    {
      assert GotosOk(b, d, b.yypgo[d]);
    }
  }

  lemma NotByShift(b: Job, indgo: seq<int>, q: int, s: int, c: nat)
    requires JobOk(b) && EnteredOn(b, s, NTBASE + c) && c <= b.nnonter
    ensures !ByShift(b, indgo, q, s)
  {
    forall k, r | 0 <= k < |b.optst| && 0 <= r < |b.optst[k]|
      ensures b.optst[k][r].1 != s
    {
      assert ShiftsOk(b, b.optst[k]) && EnteredOn(b, b.optst[k][r].1, b.optst[k][r].0);
    }
  }
}

/** How many cells the entries of a job take up at most, wherever first fit puts them. */
module Spans {
  import opened GotoColumns
  import opened Placement

  /** From the place of a state to its last shift. */
  function StateSpan(q: seq<(int, int)>): int {
    if q == [] then 0 else q[|q| - 1].0 + 1
  }

  /** The cell of the default and the column behind it. */
  function ColumnSpan(e: Goent): int {
    if e.pairs == [] then 1 else e.pairs[|e.pairs| - 1].0 + 2
  }

  /** The spans of the first n states. */
  ghost function StatesDemand(b: Job, n: nat): int
    requires n <= |b.optst|
  {
    if n == 0 then 0 else StatesDemand(b, n - 1) + StateSpan(b.optst[n - 1])
  }

  /** The spans of the nonterminals below n. */
  ghost function ColumnsDemand(b: Job, n: nat): int
    requires n <= |b.yypgo|
  {
    if n <= 1 then 0 else ColumnsDemand(b, n - 1) + ColumnSpan(b.yypgo[n - 1])
  }

  ghost function Demand(b: Job): int {
    StatesDemand(b, |b.optst|) + ColumnsDemand(b, |b.yypgo|)
  }

  /** The same for what is still to be placed. */
  ghost function StatesWaiting(b: Job, tystate: seq<int>, n: nat): int
    requires n <= |b.optst| == |tystate|
  {
    if n == 0 then 0
    else StatesWaiting(b, tystate, n - 1) + if tystate[n - 1] > 0 then StateSpan(b.optst[n - 1]) else 0
  }

  ghost function ColumnsWaiting(b: Job, ggreed: seq<int>, n: nat): int
    requires n <= |b.yypgo| == |ggreed|
  {
    if n <= 1 then 0
    else ColumnsWaiting(b, ggreed, n - 1) + if ggreed[n - 1] > 0 then ColumnSpan(b.yypgo[n - 1]) else 0
  }

  ghost function Waiting(b: Job, tystate: seq<int>, ggreed: seq<int>): int
    requires |b.optst| == |tystate| && |b.yypgo| == |ggreed|
  {
    StatesWaiting(b, tystate, |tystate|) + ColumnsWaiting(b, ggreed, |ggreed|)
  }

  lemma SpansPositive(b: Job)
    requires JobOk(b)
    ensures forall k :: 0 <= k < |b.optst| ==> 0 <= StateSpan(b.optst[k]) <= b.ntokens + 1
    ensures forall c :: 1 <= c <= b.nnonter ==> 1 <= ColumnSpan(b.yypgo[c]) <= |b.optst| + 1
  {
    forall k | 0 <= k < |b.optst|
      ensures 0 <= StateSpan(b.optst[k]) <= b.ntokens + 1
    {
      assert ShiftsOk(b, b.optst[k]);
    }
    forall c: nat | 1 <= c <= b.nnonter
      ensures 1 <= ColumnSpan(b.yypgo[c]) <= |b.optst| + 1
    {
      assert GotosOk(b, c, b.yypgo[c]);
    }
  }

  lemma {:induction false} StatesWithin(b: Job, tystate: seq<int>, n: nat)
    requires n <= |b.optst| == |tystate| && forall k :: 0 <= k < |b.optst| ==> 0 <= StateSpan(b.optst[k])
    ensures 0 <= StatesWaiting(b, tystate, n) <= StatesDemand(b, n)
    ensures forall k :: 0 <= k < n && tystate[k] > 0 ==> StateSpan(b.optst[k]) <= StatesWaiting(b, tystate, n)
  {
    if n > 0 {
      StatesWithin(b, tystate, n - 1);
    }
  }

  lemma {:induction false} ColumnsWithin(b: Job, ggreed: seq<int>, n: nat)
    requires n <= |b.yypgo| == |ggreed| && forall c :: 1 <= c < |b.yypgo| ==> 0 <= ColumnSpan(b.yypgo[c])
    ensures 0 <= ColumnsWaiting(b, ggreed, n) <= ColumnsDemand(b, n)
    ensures forall c :: 1 <= c < n && ggreed[c] > 0 ==> ColumnSpan(b.yypgo[c]) <= ColumnsWaiting(b, ggreed, n)
  {
    if n > 1 {
      ColumnsWithin(b, ggreed, n - 1);
    }
  }

  /** What waits is part of the demand, and each entry that waits is part of what waits. */
  lemma WaitingAtMost(b: Job, tystate: seq<int>, ggreed: seq<int>)
    requires JobOk(b) && |b.optst| == |tystate| && |b.yypgo| == |ggreed|
    ensures 0 <= Waiting(b, tystate, ggreed) <= Demand(b)
    ensures forall k :: 0 <= k < |tystate| && tystate[k] > 0 ==> StateSpan(b.optst[k]) <= Waiting(b, tystate, ggreed)
    ensures forall c :: 1 <= c < |ggreed| && ggreed[c] > 0 ==> ColumnSpan(b.yypgo[c]) <= Waiting(b, tystate, ggreed)
  {
    SpansPositive(b);
    StatesWithin(b, tystate, |tystate|);
    ColumnsWithin(b, ggreed, |ggreed|);
  }

  lemma {:induction false} StateLeaves(b: Job, tystate: seq<int>, i: nat, n: nat)
    requires n <= |b.optst| == |tystate| && i < |tystate| && tystate[i] > 0
    ensures StatesWaiting(b, tystate[i := 0], n) ==
      StatesWaiting(b, tystate, n) - if i < n then StateSpan(b.optst[i]) else 0
  {
    if n > 0 {
      StateLeaves(b, tystate, i, n - 1);
    }
  }

  lemma {:induction false} ColumnLeaves(b: Job, ggreed: seq<int>, c: nat, n: nat)
    requires n <= |b.yypgo| == |ggreed| && 1 <= c < |ggreed| && ggreed[c] > 0
    ensures ColumnsWaiting(b, ggreed[c := 0], n) ==
      ColumnsWaiting(b, ggreed, n) - if c < n then ColumnSpan(b.yypgo[c]) else 0
  {
    if n > 1 {
      ColumnLeaves(b, ggreed, c, n - 1);
    }
  }

  lemma {:induction false} StatesBound(b: Job, n: nat, most: nat)
    requires n <= |b.optst| && forall k :: 0 <= k < |b.optst| ==> StateSpan(b.optst[k]) <= most
    ensures StatesDemand(b, n) <= n * most
  {
    if n > 0 {
      StatesBound(b, n - 1, most);
    }
  }

  lemma {:induction false} ColumnsBound(b: Job, n: nat, most: nat)
    requires 1 <= n <= |b.yypgo| && forall c :: 1 <= c < |b.yypgo| ==> ColumnSpan(b.yypgo[c]) <= most
    ensures ColumnsDemand(b, n) <= (n - 1) * most
  {
    if n > 1 {
      ColumnsBound(b, n - 1, most);
    }
  }

  /** Every state has at most one shift on each token, every column one goto for each state. */
  lemma DemandBound(b: Job)
    requires JobOk(b)
    ensures Demand(b) <= |b.optst| * (b.ntokens + 1) + b.nnonter * (|b.optst| + 1)
  {
    SpansPositive(b);
    StatesBound(b, |b.optst|, b.ntokens + 1);
    ColumnsBound(b, |b.yypgo|, |b.optst| + 1);
  }

  /** What is placed takes up no more than its spans. */
  ghost predicate Snug(b: Job, tystate: seq<int>, ggreed: seq<int>, maxa: int) {
    && |b.optst| == |tystate| && |b.yypgo| == |ggreed|
    && maxa + Waiting(b, tystate, ggreed) <= Demand(b)
  }

  lemma SnugAfterState(b: Job, tystate: seq<int>, ggreed: seq<int>, maxa: int, i: nat, maxa': int)
    requires Snug(b, tystate, ggreed, maxa) && i < |tystate| && tystate[i] > 0
    requires maxa' <= maxa + StateSpan(b.optst[i])
    ensures Snug(b, tystate[i := 0], ggreed, maxa')
  {
    StateLeaves(b, tystate, i, |tystate|);
  }

  lemma SnugAfterColumn(b: Job, tystate: seq<int>, ggreed: seq<int>, maxa: int, c: nat, maxa': int)
    requires Snug(b, tystate, ggreed, maxa) && 1 <= c < |ggreed| && ggreed[c] > 0
    requires maxa' <= maxa + ColumnSpan(b.yypgo[c])
    ensures Snug(b, tystate, ggreed[c := 0], maxa')
  {
    ColumnLeaves(b, ggreed, c, |ggreed|);
  }
}

module Optimizing {
  import opened Grammars
  import opened KernelStore
  import opened Actions
  import opened GotoColumns
  import opened Placement
  import opened Spans

  // ------------------------------------------------------------------ gotos

  /** Every cell that the column needs at p is free. */
  ghost predicate ColumnFree(mem: seq<int>, pairs: seq<(int, int)>, p: int) {
    CellIs(mem, p, 0) && forall r :: 0 <= r < |pairs| ==> CellIs(mem, p + pairs[r].0 + 1, 0)
  }

  /** The first n pairs have been stored, shifted by d; the rest is as it was. */
  ghost predicate PairsStored(was: seq<int>, mem: seq<int>, pairs: seq<(int, int)>, d: int, n: nat) {
    && |mem| == |was| && n <= |pairs|
    && (forall r :: 0 <= r < n ==> CellIs(mem, pairs[r].0 + d, pairs[r].1))
    && forall q :: 0 <= q < |mem| && mem[q] != was[q] ==> Among(pairs, q - d, mem[q], n)
  }

  ghost predicate Among(pairs: seq<(int, int)>, k: int, v: int, n: nat) {
    exists r :: 0 <= r < n && r < |pairs| && pairs[r] == (k, v)
  }

  /** Cells in use keep what they hold. */
  ghost predicate Kept(was: seq<int>, mem: seq<int>) {
    |mem| == |was| && forall q :: 0 <= q < |was| && was[q] != 0 ==> mem[q] == was[q]
  }

  lemma ShiftsKept(was: seq<int>, mem: seq<int>, b: Job, pairs: seq<(int, int)>, n: int)
    requires ShiftsAt(was, pairs, n) && ShiftsOk(b, pairs) && Kept(was, mem)
    ensures ShiftsAt(mem, pairs, n)
  {
    forall r | 0 <= r < |pairs|
      ensures CellIs(mem, pairs[r].0 + n, pairs[r].1)
    {
      assert CellIs(was, pairs[r].0 + n, pairs[r].1) && EnteredOn(b, pairs[r].1, pairs[r].0);
    }
  }

  lemma GotosKept(was: seq<int>, mem: seq<int>, b: Job, c: nat, e: Goent, p: int)
    requires GotosRead(was, e, p) && GotosOk(b, c, e) && Kept(was, mem)
    ensures GotosRead(mem, e, p)
  {
    forall r | 0 <= r < |e.pairs|
      ensures CellIs(mem, p + e.pairs[r].0 + 1, e.pairs[r].1)
    {
      assert CellIs(was, p + e.pairs[r].0 + 1, e.pairs[r].1) && EnteredOn(b, e.pairs[r].1, NTBASE + c);
    }
  }

  /** Column c has been placed at p. */
  lemma LayoutAfterColumn(b: Job, was: seq<int>, mem: seq<int>, indgo: seq<int>, pgo: seq<int>, ggreed: seq<int>,
                          c: nat, p: nat)
    requires JobOk(b) && Layout(b, was, indgo, pgo, ggreed) && 1 <= c <= b.nnonter && ggreed[c] != 0
    requires p < |was| == |mem| && Kept(was, mem) && GotosRead(mem, b.yypgo[c], p)
    requires forall q :: 0 <= q < |mem| && mem[q] != was[q] ==>
      (q == p && mem[q] == b.yypgo[c].best) || Among(b.yypgo[c].pairs, q - p - 1, mem[q], |b.yypgo[c].pairs|)
    ensures Layout(b, mem, indgo, pgo[c := p], ggreed[c := 0])
  {
    hide JobOk;
    var pgo', ggreed' := pgo[c := p], ggreed[c := 0];
    forall k | 0 <= k < |indgo|
      ensures StateLaid(b, mem, indgo, k)
    {
      assert StateLaid(b, was, indgo, k);
      if indgo[k] != YYFLAG {
        JobShifts(b, k);
        ShiftsKept(was, mem, b, b.optst[k], indgo[k]);
      }
    }
    forall d: nat | 1 <= d <= b.nnonter
      ensures ColumnLaid(b, mem, pgo', ggreed', d)
    {
      if d != c {
        assert ColumnLaid(b, was, pgo, ggreed, d);
        if ggreed[d] == 0 {
          JobGotos(b, d);
          GotosKept(was, mem, b, d, b.yypgo[d], pgo[d]);
        }
      }
    }
    forall q | 0 <= q < |mem|
      ensures Explained(b, mem, indgo, pgo', ggreed', q)
    {
      ExplainedAfterColumn(b, was, mem, indgo, pgo, ggreed, c, p, q);
    }
  }

  /** The smallest key comes first. */
  lemma SmallestFirst(b: Job, pairs: seq<(int, int)>, low: nat)
    requires JobOk(b) && ShiftsOk(b, pairs) && forall r :: 0 <= r < |pairs| ==> low <= pairs[r].0
    requires low < 32000 ==> exists r :: 0 <= r < |pairs| && low == pairs[r].0
    ensures pairs != [] ==> low < 32000 && pairs[0].0 <= low
  {
  }

  lemma JobShifts(b: Job, k: nat)
    requires JobOk(b) && k < |b.optst|
    ensures ShiftsOk(b, b.optst[k]) && forall r :: 0 <= r < |b.optst[k]| ==> b.optst[k][r].0 >= 0
  {
  }

  lemma JobGotos(b: Job, c: nat)
    requires JobOk(b) && 1 <= c <= b.nnonter
    ensures c < |b.yypgo| && GotosOk(b, c, b.yypgo[c])
    ensures forall r :: 0 <= r < |b.yypgo[c].pairs| ==> b.yypgo[c].pairs[r].0 >= 0
  {
  }

  lemma ExplainedAfterColumn(b: Job, was: seq<int>, mem: seq<int>, indgo: seq<int>, pgo: seq<int>, ggreed: seq<int>,
                             c: nat, p: nat, q: nat)
    requires |pgo| == |ggreed| == |b.yypgo| == b.nnonter + 1 && 1 <= c <= b.nnonter && ggreed[c] != 0
    requires q < |was| == |mem| && Explained(b, was, indgo, pgo, ggreed, q) && Kept(was, mem)
    requires mem[q] != was[q] ==>
      (q == p && mem[q] == b.yypgo[c].best) || Among(b.yypgo[c].pairs, q - p - 1, mem[q], |b.yypgo[c].pairs|)
    ensures Explained(b, mem, indgo, pgo[c := p], ggreed[c := 0], q)
  {
    var pgo', ggreed' := pgo[c := p], ggreed[c := 0];
    var v := mem[q];
    if v == was[q] {
      if ByDefault(b, pgo, ggreed, q, v) {
        var d: nat :| 1 <= d <= b.nnonter && ggreed[d] == 0 && q == pgo[d] && v == b.yypgo[d].best;
        assert ggreed'[d] == 0 && q == pgo'[d];
      } else if ByGoto(b, pgo, ggreed, q, v) {
        var d: nat, r :| 1 <= d <= b.nnonter && ggreed[d] == 0 && 0 <= r < |b.yypgo[d].pairs| &&
          q == pgo[d] + b.yypgo[d].pairs[r].0 + 1 && v == b.yypgo[d].pairs[r].1;
        assert ggreed'[d] == 0 && q == pgo'[d] + b.yypgo[d].pairs[r].0 + 1;
      }
    } else if q == p && v == b.yypgo[c].best {
      assert ggreed'[c] == 0 && q == pgo'[c];
      assert ByDefault(b, pgo', ggreed', q, v);
    } else {
      var r :| 0 <= r < |b.yypgo[c].pairs| && b.yypgo[c].pairs[r] == (q - p - 1, v);
      assert ggreed'[c] == 0 && q == pgo'[c] + b.yypgo[c].pairs[r].0 + 1;
      assert ByGoto(b, pgo', ggreed', q, v);
    }
  }

  // ------------------------------------------------------------------ states

  /** Every cell that the shifts need at n is free or already right. */
  ghost predicate ShiftsFit(mem: seq<int>, pairs: seq<(int, int)>, n: int) {
    forall r :: 0 <= r < |pairs| ==>
      0 <= pairs[r].0 + n < |mem| && (mem[pairs[r].0 + n] == 0 || mem[pairs[r].0 + n] == pairs[r].1)
  }

  ghost predicate NobodyAt(indgo: seq<int>, n: int) {
    forall j :: 0 <= j < |indgo| ==> indgo[j] != n
  }

  /** State i has been placed at n: alone, or with states that have the same shifts. */
  lemma LayoutAfterState(b: Job, was: seq<int>, mem: seq<int>, indgo: seq<int>, pgo: seq<int>, ggreed: seq<int>, i: nat,
                         n: int)
    requires JobOk(b) && Layout(b, was, indgo, pgo, ggreed) && i < |indgo| && indgo[i] == YYFLAG && n > YYFLAG
    requires Kept(was, mem) && ShiftsAt(mem, b.optst[i], n)
    requires forall q :: 0 <= q < |mem| && mem[q] != was[q] ==> Among(b.optst[i], q - n, mem[q], |b.optst[i]|)
    requires forall j :: 0 <= j < |indgo| && indgo[j] == n ==> b.optst[j] == b.optst[i]
    ensures Layout(b, mem, indgo[i := n], pgo, ggreed)
  {
    hide JobOk;
    var indgo' := indgo[i := n];
    forall k | 0 <= k < |indgo|
      ensures StateLaid(b, mem, indgo', k)
    {
      if k != i {
        assert StateLaid(b, was, indgo, k);
        if indgo[k] != YYFLAG {
          JobShifts(b, k);
          ShiftsKept(was, mem, b, b.optst[k], indgo[k]);
        }
      }
    }
    forall d: nat | 1 <= d <= b.nnonter
      ensures ColumnLaid(b, mem, pgo, ggreed, d)
    {
      assert ColumnLaid(b, was, pgo, ggreed, d);
      if ggreed[d] == 0 {
        JobGotos(b, d);
        GotosKept(was, mem, b, d, b.yypgo[d], pgo[d]);
      }
    }
    forall q | 0 <= q < |mem|
      ensures Explained(b, mem, indgo', pgo, ggreed, q)
    {
      ExplainedAfterState(b, was, mem, indgo, pgo, ggreed, i, n, q);
    }
  }

  lemma ExplainedAfterState(b: Job, was: seq<int>, mem: seq<int>, indgo: seq<int>, pgo: seq<int>, ggreed: seq<int>,
                            i: nat, n: int, q: nat)
    requires |indgo| == |b.optst| && i < |indgo| && indgo[i] == YYFLAG && n > YYFLAG
    requires q < |was| == |mem| && Explained(b, was, indgo, pgo, ggreed, q)
    requires mem[q] != was[q] ==> Among(b.optst[i], q - n, mem[q], |b.optst[i]|)
    ensures Explained(b, mem, indgo[i := n], pgo, ggreed, q)
  {
    var indgo' := indgo[i := n];
    var v := mem[q];
    if v != was[q] {
      var r :| 0 <= r < |b.optst[i]| && b.optst[i][r] == (q - n, v);
      assert indgo'[i] != YYFLAG && q == b.optst[i][r].0 + indgo'[i] && v == b.optst[i][r].1;
      assert ByShift(b, indgo', q, v);
    } else if ByShift(b, indgo, q, v) {
      var k, r :| 0 <= k < |b.optst| && indgo[k] != YYFLAG && 0 <= r < |b.optst[k]| &&
        q == b.optst[k][r].0 + indgo[k] && v == b.optst[k][r].1;
      assert indgo'[k] != YYFLAG && q == b.optst[k][r].0 + indgo'[k];
      assert ByShift(b, indgo', q, v);
    }
  }

  /** The test of stin on another state at the same place, which compares lengths only, does
      compare the shifts. */
  lemma SameLengthSameShifts(b: Job, mem: seq<int>, indgo: seq<int>, pgo: seq<int>, ggreed: seq<int>, i: nat, j: nat)
    requires JobOk(b) && Layout(b, mem, indgo, pgo, ggreed) && i < |indgo| && j < |indgo| && indgo[j] != YYFLAG
    requires ShiftsAt(mem, b.optst[i], indgo[j]) && |b.optst[i]| == |b.optst[j]|
    ensures b.optst[i] == b.optst[j]
  {
    JobShifts(b, i);
    JobShifts(b, j);
    forall r | 0 <= r < |b.optst[i]|
      ensures b.optst[i][r] in b.optst[j]
    {
      assert CellIs(mem, b.optst[i][r].0 + indgo[j], b.optst[i][r].1) && EnteredOn(b, b.optst[i][r].1, b.optst[i][r].0);
      ShiftIsOwn(b, mem, indgo, pgo, ggreed, j, b.optst[i][r].0);
    }
    IncreasingSame(b.optst[i], b.optst[j], b.ntokens + 1);
  }

  /** An increasing list inside another of the same length is that list. */
  lemma IncreasingSame(x: seq<(int, int)>, y: seq<(int, int)>, n: int)
    requires Increasing(x, n) && Increasing(y, n) && |x| == |y| && forall r :: 0 <= r < |x| ==> x[r] in y
    ensures x == y
  {
    IncreasingInside(x, y, n, |x|);
    IncreasingOutside(x, y, n, 0);
    forall r | 0 <= r < |x|
      ensures x[r] == y[r]
    {
      var s :| 0 <= s < |y| && y[s] == x[r];
    }
  }

  /** The r-th entry of x is no earlier in y... */
  lemma {:induction false} IncreasingInside(x: seq<(int, int)>, y: seq<(int, int)>, n: int, k: nat)
    requires Increasing(x, n) && Increasing(y, n) && k <= |x| && forall r :: 0 <= r < |x| ==> x[r] in y
    ensures forall r, s :: 0 <= r < k && 0 <= s < |y| && y[s] == x[r] ==> s >= r
  {
    if k > 0 {
      IncreasingInside(x, y, n, k - 1);
      forall s | 0 <= s < |y| && y[s] == x[k - 1]
        ensures s >= k - 1
      {
        if k > 1 {
          var s' :| 0 <= s' < |y| && y[s'] == x[k - 2];
          assert y[s'].0 < y[s].0;
        }
      }
    }
  }

  /** ... and, when the lists are as long as each other, no later. */
  lemma {:induction false} IncreasingOutside(x: seq<(int, int)>, y: seq<(int, int)>, n: int, k: nat)
    requires Increasing(x, n) && Increasing(y, n) && |x| == |y| && k <= |x| && forall r :: 0 <= r < |x| ==> x[r] in y
    ensures forall r, s :: k <= r < |x| && 0 <= s < |y| && y[s] == x[r] ==> s <= r
    decreases |x| - k
  {
    if k < |x| {
      IncreasingOutside(x, y, n, k + 1);
      forall s | 0 <= s < |y| && y[s] == x[k]
        ensures s <= k
      {
        if k + 1 < |x| {
          var s' :| 0 <= s' < |y| && y[s'] == x[k + 1];
          assert y[s].0 < y[s'].0;
        }
      }
    }
  }

  // ------------------------------------------------------------------ the optimizer

  /** Nothing is stored above maxa, and every column starts at or below it. */
  ghost predicate Bounded(mem: seq<int>, pgo: seq<int>, ggreed: seq<int>, maxa: int)
    requires |pgo| == |ggreed|
  {
    && -1 < maxa < |mem| && (forall q :: maxa < q < |mem| ==> mem[q] == 0)
    && forall c :: 0 <= c < |pgo| && ggreed[c] == 0 ==> pgo[c] <= maxa
  }

  /** What is left to place: states with a priority, nonterminals as their negative. */
  ghost function Open(tystate: seq<int>, ggreed: seq<int>): set<int> {
    (set k | 0 <= k < |tystate| && tystate[k] > 0) + (set c | 1 <= c < |ggreed| && ggreed[c] > 0 :: 0 - c)
  }

  /** A state has priority 0 when it is placed, or has nothing to place. */
  ghost predicate Queued(b: Job, tystate: seq<int>, ggreed: seq<int>, indgo: seq<int>) {
    && |tystate| == |indgo| == |b.optst| && |ggreed| == b.nnonter + 1
    && (forall k :: 0 <= k < |tystate| ==> StateQueued(b, tystate, indgo, k))
    && forall c :: 1 <= c < |ggreed| ==> ggreed[c] >= 0
  }

  ghost predicate StateQueued(b: Job, tystate: seq<int>, indgo: seq<int>, k: int)
    requires 0 <= k < |tystate| == |indgo| == |b.optst|
  {
    tystate[k] >= 0 && (tystate[k] > 0 <==> b.optst[k] != [] && indgo[k] == YYFLAG) &&
      (b.optst[k] == [] ==> indgo[k] == YYFLAG)
  }

  /** The priority of state i, or of nonterminal -i. */
  function Priority(tystate: seq<int>, ggreed: seq<int>, i: int): int {
    if 0 <= i < |tystate| then tystate[i] else if 0 < 0 - i < |ggreed| then ggreed[0 - i] else 0
  }

  /** high is the largest key, 0 if there are no pairs. */
  ghost predicate LargestKey(pairs: seq<(int, int)>, high: int) {
    && (forall r :: 0 <= r < |pairs| ==> pairs[r].0 <= high)
    && (if pairs == [] then high == 0 else exists r :: 0 <= r < |pairs| && pairs[r].0 == high)
  }

  /** How urgent callopt first takes the items to be: the more entries, and the wider, the sooner. */
  ghost predicate Ranked(b: Job, tystate: seq<int>, ggreed: seq<int>) {
    && |tystate| == |b.optst| && |ggreed| == b.nnonter + 1 == |b.yypgo|
    && (forall k :: 0 <= k < |tystate| ==> RankOf(b.optst[k], tystate[k], 0))
    && forall c :: 1 <= c < |ggreed| ==> RankOf(b.yypgo[c].pairs, ggreed[c], 1)
  }

  ghost predicate RankOf(pairs: seq<(int, int)>, rank: int, more: int) {
    exists high :: LargestKey(pairs, high) && rank == more + 2 * |pairs| + 2 * high
  }

  lemma RankIs(pairs: seq<(int, int)>, high: int, more: int)
    requires LargestKey(pairs, high)
    ensures RankOf(pairs, more + 2 * |pairs| + 2 * high, more)
  {
  }

  /** Starting at -maxoff, stin misses no place. */
  ghost predicate FromOff(b: Job, maxoff: nat) {
    forall i :: 0 <= i < |b.optst| && b.optst[i] != [] ==> b.optst[i][0].0 <= maxoff
  }

  /** Place n is that of a state with other shifts. */
  ghost predicate Clash(b: Job, mem: seq<int>, indgo: seq<int>, i: nat, n: int)
    requires i < |b.optst| == |indgo|
  {
    exists j :: 0 <= j < |indgo| && indgo[j] == n && !(ShiftsAt(mem, b.optst[i], n) && |b.optst[j]| == |b.optst[i]|)
  }

  /** Every place that fits is that of a state with other shifts. */
  ghost predicate NoPlaceFor(b: Job, mem: seq<int>, indgo: seq<int>, i: nat)
    requires i < |b.optst| == |indgo|
  {
    forall n :: ShiftsFit(mem, b.optst[i], n) ==> Clash(b, mem, indgo, i, n)
  }

  /** n is the least place that fits and is not that of a state with other shifts. */
  ghost predicate FirstPlace(b: Job, mem: seq<int>, indgo: seq<int>, i: nat, n: int)
    requires i < |b.optst| == |indgo|
  {
    && ShiftsFit(mem, b.optst[i], n) && !Clash(b, mem, indgo, i, n)
    && forall k :: k < n && ShiftsFit(mem, b.optst[i], k) ==> Clash(b, mem, indgo, i, k)
  }

  /** p is the least place where all cells of the column are free. */
  ghost predicate FirstFree(mem: seq<int>, e: Goent, p: int) {
    ColumnFree(mem, e.pairs, p) && forall k :: k < p ==> !ColumnFree(mem, e.pairs, k)
  }

  ghost predicate NoPlaceForColumn(mem: seq<int>, e: Goent) {
    forall p :: !ColumnFree(mem, e.pairs, p)
  }

  /** The test of place n asks for the cell one past the end: all cells for smaller tokens exist
      and do not speak against n. */
  ghost predicate PastEndAt(mem: seq<int>, q: seq<(int, int)>, n: int) {
    exists r :: 0 <= r < |q| && q[r].0 + n == |mem| && FitUpTo(mem, q, n, r)
  }

  ghost predicate FitUpTo(mem: seq<int>, q: seq<(int, int)>, n: int, r: nat) {
    r <= |q| && forall k :: 0 <= k < r ==>
      0 <= q[k].0 + n < |mem| && (mem[q[k].0 + n] == 0 || mem[q[k].0 + n] == q[k].1)
  }

  /** Among the places that stin tries there is one whose test runs past the end. */
  ghost predicate RunsPast(mem: seq<int>, q: seq<(int, int)>, maxoff: nat) {
    exists n :: 0 - maxoff <= n < |mem| && PastEndAt(mem, q, n)
  }

  /** The place at which the smallest token falls one past the end is always among them. */
  lemma AlwaysRunsPast(mem: seq<int>, q: seq<(int, int)>, maxoff: nat)
    requires q != [] && 0 < q[0].0 <= |mem|
    ensures RunsPast(mem, q, maxoff)
  {
    assert FitUpTo(mem, q, |mem| - q[0].0, 0);
    assert PastEndAt(mem, q, |mem| - q[0].0);
  }

  /** How the search for a place ends: found, not found, or with an access one past the end of the
      array. */
  datatype Placing = Placed | NoPlace | PastEnd

  /** What holds between two placements. */
  ghost predicate LaidSoFar(b: Job, mem: seq<int>, indgo: seq<int>, pgo: seq<int>, tystate: seq<int>, ggreed: seq<int>,
                            maxa: int, maxoff: nat) {
    && |mem| == ACTSIZE && Queued(b, tystate, ggreed, indgo) && Layout(b, mem, indgo, pgo, ggreed)
    && Bounded(mem, pgo, ggreed, maxa) && FromOff(b, maxoff) && Snug(b, tystate, ggreed, maxa)
  }

  /** State i waits, has no place, and the search for one runs past the end. */
  ghost predicate StateStuck(b: Job, mem: seq<int>, indgo: seq<int>, pgo: seq<int>, tystate: seq<int>, ggreed: seq<int>,
                             maxa: int, maxoff: nat, i: nat) {
    && LaidSoFar(b, mem, indgo, pgo, tystate, ggreed, maxa, maxoff) && i < |b.optst| && tystate[i] > 0
    && NoPlaceFor(b, mem, indgo, i) && RunsPast(mem, b.optst[i], maxoff)
  }

  /** Column c waits and has no place. */
  ghost predicate ColumnStuck(b: Job, mem: seq<int>, indgo: seq<int>, pgo: seq<int>, tystate: seq<int>,
                              ggreed: seq<int>, maxa: int, maxoff: nat, c: nat) {
    && LaidSoFar(b, mem, indgo, pgo, tystate, ggreed, maxa, maxoff) && 1 <= c < |b.yypgo| && ggreed[c] > 0
    && NoPlaceForColumn(mem, b.yypgo[c])
  }

  /** Why not everything is placed: some state, or some column, has no place in the array as the
      placements before it have left it. */
  ghost predicate Stuck(b: Job, mem: seq<int>, indgo: seq<int>, pgo: seq<int>, tystate: seq<int>, ggreed: seq<int>,
                        maxa: int, maxoff: nat, placing: Placing) {
    match placing
    case Placed => false
    case PastEnd => exists i: nat :: StateStuck(b, mem, indgo, pgo, tystate, ggreed, maxa, maxoff, i)
    case NoPlace => exists c: nat :: ColumnStuck(b, mem, indgo, pgo, tystate, ggreed, maxa, maxoff, c)
  }

  /** Nothing is placed above maxa, and no state at a cell above it. */
  lemma NobodyAbove(b: Job, mem: seq<int>, indgo: seq<int>, pgo: seq<int>, tystate: seq<int>, ggreed: seq<int>,
                    maxa: int)
    requires JobOk(b) && Queued(b, tystate, ggreed, indgo) && Layout(b, mem, indgo, pgo, ggreed)
    requires Bounded(mem, pgo, ggreed, maxa)
    ensures forall j :: 0 <= j < |indgo| ==> indgo[j] <= maxa
  {
    forall j | 0 <= j < |indgo|
      ensures indgo[j] <= maxa
    {
      assert StateLaid(b, mem, indgo, j) && StateQueued(b, tystate, indgo, j);
      if indgo[j] != YYFLAG {
        var q := b.optst[j];
        assert ShiftsOk(b, q) && EnteredOn(b, q[0].1, q[0].0) && CellIs(mem, q[0].0 + indgo[j], q[0].1);
      }
    }
  }

  /** While the array reaches beyond maxa and the span, a state fits right above maxa. */
  lemma StateRoom(b: Job, mem: seq<int>, indgo: seq<int>, pgo: seq<int>, tystate: seq<int>, ggreed: seq<int>, maxa: int,
                  i: nat)
    requires JobOk(b) && Queued(b, tystate, ggreed, indgo) && Layout(b, mem, indgo, pgo, ggreed)
    requires Bounded(mem, pgo, ggreed, maxa) && i < |b.optst| && maxa + StateSpan(b.optst[i]) < |mem|
    ensures ShiftsFit(mem, b.optst[i], maxa + 1) && !Clash(b, mem, indgo, i, maxa + 1)
  {
    var q := b.optst[i];
    NobodyAbove(b, mem, indgo, pgo, tystate, ggreed, maxa);
    assert ShiftsOk(b, q);
    forall r | 0 <= r < |q|
      ensures maxa < q[r].0 + (maxa + 1) < |mem|
    {
      assert r < |q| - 1 ==> q[r].0 < q[|q| - 1].0;
    }
  }

  /** And so does a column. */
  lemma ColumnRoom(b: Job, mem: seq<int>, pgo: seq<int>, ggreed: seq<int>, maxa: int, c: nat)
    requires JobOk(b) && |pgo| == |ggreed| && Bounded(mem, pgo, ggreed, maxa) && 1 <= c <= b.nnonter
    requires maxa + ColumnSpan(b.yypgo[c]) < |mem|
    ensures ColumnFree(mem, b.yypgo[c].pairs, maxa + 1)
  {
    var pairs := b.yypgo[c].pairs;
    assert GotosOk(b, c, b.yypgo[c]);
    forall r | 0 <= r < |pairs|
      ensures CellIs(mem, (maxa + 1) + pairs[r].0 + 1, 0)
    {
      assert r < |pairs| - 1 ==> pairs[r].0 < pairs[|pairs| - 1].0;
    }
  }

  lemma StateHasRoom(b: Job, mem: seq<int>, indgo: seq<int>, pgo: seq<int>, tystate: seq<int>, ggreed: seq<int>,
                     maxa: int, i: nat)
    requires JobOk(b) && Queued(b, tystate, ggreed, indgo) && Layout(b, mem, indgo, pgo, ggreed)
    requires Bounded(mem, pgo, ggreed, maxa) && i < |b.optst|
    ensures maxa + StateSpan(b.optst[i]) < |mem| ==> !NoPlaceFor(b, mem, indgo, i)
  {
    hide JobOk, Bounded, ShiftsFit, Clash, StateSpan, StateLaid, ColumnLaid, Explained, SharedAlike;
    if maxa + StateSpan(b.optst[i]) < |mem| {
      StateRoom(b, mem, indgo, pgo, tystate, ggreed, maxa, i);
    }
  }

  lemma ColumnHasRoom(b: Job, mem: seq<int>, pgo: seq<int>, ggreed: seq<int>, maxa: int, c: nat)
    requires JobOk(b) && |pgo| == |ggreed| && Bounded(mem, pgo, ggreed, maxa) && 1 <= c <= b.nnonter
    ensures c < |b.yypgo| && (maxa + ColumnSpan(b.yypgo[c]) < |mem| ==> !NoPlaceForColumn(mem, b.yypgo[c]))
  {
    hide JobOk, Bounded, ColumnFree, ColumnSpan;
    JobGotos(b, c);
    if maxa + ColumnSpan(b.yypgo[c]) < |mem| {
      ColumnRoom(b, mem, pgo, ggreed, maxa, c);
    }
  }

  /** The array is long enough for every job whose spans add up to less than its length. */
  lemma StuckDemand(b: Job, mem: seq<int>, indgo: seq<int>, pgo: seq<int>, tystate: seq<int>, ggreed: seq<int>,
                    maxa: int, maxoff: nat, placing: Placing)
    requires JobOk(b) && Stuck(b, mem, indgo, pgo, tystate, ggreed, maxa, maxoff, placing)
    ensures Demand(b) >= ACTSIZE
  {
    hide JobOk, Layout, Queued, Bounded, NoPlaceFor, NoPlaceForColumn, RunsPast;
    LaidSizes(b, mem, indgo, pgo, tystate, ggreed, maxa, maxoff);
    WaitingAtMost(b, tystate, ggreed);
    if placing == PastEnd {
      var i: nat :| StateStuck(b, mem, indgo, pgo, tystate, ggreed, maxa, maxoff, i);
      StateHasRoom(b, mem, indgo, pgo, tystate, ggreed, maxa, i);
    } else {
      var c: nat :| ColumnStuck(b, mem, indgo, pgo, tystate, ggreed, maxa, maxoff, c);
      ColumnHasRoom(b, mem, pgo, ggreed, maxa, c);
    }
  }

  lemma LaidSizes(b: Job, mem: seq<int>, indgo: seq<int>, pgo: seq<int>, tystate: seq<int>, ggreed: seq<int>,
                  maxa: int, maxoff: nat)
    requires JobOk(b) && LaidSoFar(b, mem, indgo, pgo, tystate, ggreed, maxa, maxoff)
    ensures |pgo| == |ggreed| == |b.yypgo| == b.nnonter + 1 && |tystate| == |indgo| == |b.optst|
  {
  }

  class Optimizer {
    const optst: seq<seq<(int, int)>>
    const yypgo: seq<Goent>
    const nnonter: nat
    /** The same, with the accessing symbols that the layout is measured by. */
    ghost const b: Job
    const amem: array<int>
    var tystate: seq<int>
    var ggreed: seq<int>
    var indgo: seq<int>
    var pgo: seq<int>
    var maxa: int
    var maxoff: nat

    ghost predicate Mine() {
      b.optst == optst && b.yypgo == yypgo && b.nnonter == nnonter
    }

    ghost predicate Valid()
      reads this, amem
    {
      && Mine() && JobOk(b) && amem.Length == ACTSIZE && Queued(b, tystate, ggreed, indgo)
      && Layout(b, amem[..], indgo, pgo, ggreed) && Bounded(amem[..], pgo, ggreed, maxa) && FromOff(b, maxoff)
      && Snug(b, tystate, ggreed, maxa)
    }

    /** The initial part of callopt: priorities and offsets. */
    constructor (optst: seq<seq<(int, int)>>, yypgo: seq<Goent>, nnonter: nat, ghost b: Job)
      requires JobOk(b) && b.optst == optst && b.yypgo == yypgo && b.nnonter == nnonter
      ensures this.b == b && Valid() && fresh(amem) && Ranked(b, tystate, ggreed)
    {
      hide JobOk, Layout, RankOf, FromOff;
      this.optst, this.yypgo, this.nnonter, this.b := optst, yypgo, nnonter, b;
      amem := new int[ACTSIZE](_ => 0);
      maxa := 0;
      var ty, off := RankStates(optst, b);
      var gg, most := RankColumns(yypgo, nnonter, off, b);
      tystate, ggreed, maxoff := ty, gg, most;
      indgo := seq(|optst|, _ => YYFLAG);
      pgo := seq(nnonter + 1, _ => 0);
      new;
      JobCounts(b);
      NothingLaid(b, amem[..], indgo, pgo, ggreed);
      WaitingAtMost(b, tystate, ggreed);
    }

    /** Priorities of the states, and an offset before the first token of each. */
    static method RankStates(optst: seq<seq<(int, int)>>, ghost b: Job) returns (tystate: seq<int>, maxoff: nat)
      requires JobOk(b) && b.optst == optst
      ensures |tystate| == |optst| && FromOff(b, maxoff)
      ensures forall k :: 0 <= k < |optst| ==>
        tystate[k] >= 0 && (tystate[k] > 0 <==> optst[k] != []) && RankOf(optst[k], tystate[k], 0)
    {
      hide JobOk, ShiftsOk, RankOf, LargestKey;
      tystate, maxoff := [], 0;
      for i := 0 to |optst|
        invariant |tystate| == i && forall k :: 0 <= k < i ==>
          tystate[k] >= 0 && (tystate[k] > 0 <==> optst[k] != []) && RankOf(optst[k], tystate[k], 0)
        invariant forall k :: 0 <= k < i && b.optst[k] != [] ==> b.optst[k][0].0 <= maxoff
      {
        JobShifts(b, i);
        var low, high := Range(optst[i], 32000);
        SmallestFirst(b, optst[i], low);
        if low <= high {
          maxoff := if low > maxoff then low else maxoff;
        }
        tystate := tystate + [2 * |optst[i]| + 2 * high];
        RankIs(optst[i], high, 0);
      }
    }

    /** Priorities of the goto columns. */
    static method RankColumns(yypgo: seq<Goent>, nnonter: nat, off: nat, ghost b: Job)
      returns (ggreed: seq<int>, maxoff: nat)
      requires JobOk(b) && b.yypgo == yypgo && b.nnonter == nnonter && FromOff(b, off)
      ensures |ggreed| == nnonter + 1 == |yypgo| && ggreed[0] == 0 && FromOff(b, maxoff)
      ensures forall c :: 1 <= c <= nnonter ==> ggreed[c] > 0 && RankOf(yypgo[c].pairs, ggreed[c], 1)
    {
      hide JobOk, GotosOk, RankOf, LargestKey;
      JobCounts(b);
      ggreed, maxoff := [0], off;
      for i := 1 to nnonter + 1
        invariant |ggreed| == i && ggreed[0] == 0 && FromOff(b, maxoff)
        invariant forall c :: 1 <= c < i ==> ggreed[c] > 0 && RankOf(yypgo[c].pairs, ggreed[c], 1)
      {
        JobGotos(b, i);
        var low, high := Range(yypgo[i].pairs, 32000);
        ggreed := ggreed + [1 + 2 * |yypgo[i].pairs| + 2 * high];
        RankIs(yypgo[i].pairs, high, 1);
        maxoff := if high > maxoff then high else maxoff;
      }
    }

    /** Smallest and largest key, as callopt computes them. */
    static method Range(pairs: seq<(int, int)>, limit: nat) returns (low: nat, high: nat)
      requires forall r :: 0 <= r < |pairs| ==> pairs[r].0 >= 0
      ensures forall r :: 0 <= r < |pairs| ==> low <= pairs[r].0 <= high
      ensures pairs == [] ==> low == limit && high == 0
      ensures low < limit ==> exists r :: 0 <= r < |pairs| && low == pairs[r].0
      ensures LargestKey(pairs, high)
    {
      low, high := limit, 0;
      for r := 0 to |pairs|
        invariant forall k :: 0 <= k < r ==> low <= pairs[k].0 <= high
        invariant r == 0 ==> low == limit && high == 0
        invariant if high == 0 then r == 0 || exists k :: 0 <= k < r && pairs[k].0 == 0
                  else exists k :: 0 <= k < r && pairs[k].0 == high
        invariant low <= limit && (low < limit ==> exists k :: 0 <= k < r && low == pairs[k].0)
      {
        if pairs[r].0 > high {
          high := pairs[r].0;
        }
        if pairs[r].0 < low {
          low := pairs[r].0;
        }
      }
    }

    /** nxti: what to place next, the largest priority first. */
    method Nxti() returns (maxi: int)
      requires Mine() && Queued(b, tystate, ggreed, indgo) && b.nnonter < 1000
      ensures maxi == NOMORE ==> Open(tystate, ggreed) == {}
      ensures maxi != NOMORE ==> maxi in Open(tystate, ggreed)
      ensures maxi != NOMORE ==> forall k :: 0 <= k < |tystate| ==> tystate[k] <= Priority(tystate, ggreed, maxi)
      ensures maxi != NOMORE ==> forall c :: 1 <= c < |ggreed| ==> ggreed[c] <= Priority(tystate, ggreed, maxi)
      ensures maxi != NOMORE && maxi >= 0 ==> forall k :: maxi < k < |tystate| ==> tystate[k] < tystate[maxi]
      ensures maxi != NOMORE && maxi < 0 ==> forall k :: 0 <= k < |tystate| ==> tystate[k] < ggreed[0 - maxi]
      ensures maxi != NOMORE && maxi < 0 ==> forall c :: 0 - maxi < c < |ggreed| ==> ggreed[c] < ggreed[0 - maxi]
    {
      var max := 0;
      maxi := 0;
      for i := 1 to nnonter + 1
        invariant max >= 0 && forall c :: 1 <= c < i ==> ggreed[c] <= max
        invariant max > 0 ==> maxi < 0 && 0 - maxi <= b.nnonter && ggreed[0 - maxi] == max
        invariant max > 0 ==> 0 - maxi < i && forall c :: 0 - maxi < c < i ==> ggreed[c] < max
      {
        if ggreed[i] >= max {
          max := ggreed[i];
          maxi := 0 - i;
        }
      }
      for i := 0 to |optst|
        invariant max >= 0 && (forall c :: 1 <= c <= b.nnonter ==> ggreed[c] <= max) && forall k :: 0 <= k < i ==>
          tystate[k] <= max
        invariant max > 0 ==> if maxi < 0 then 0 - maxi <= b.nnonter && ggreed[0 - maxi] == max
                  else maxi < |b.optst| && tystate[maxi] == max
        invariant max > 0 && maxi >= 0 ==> maxi < i && forall k :: maxi < k < i ==> tystate[k] < max
        invariant max > 0 && maxi < 0 ==> forall k :: 0 <= k < i ==> tystate[k] < max
        invariant max > 0 && maxi < 0 ==> forall c :: 0 - maxi < c <= b.nnonter ==> ggreed[c] < max
      {
        if tystate[i] >= max {
          max := tystate[i];
          maxi := i;
        }
      }
      if max == 0 {
        return NOMORE;
      }
      if maxi < 0 {
        assert 1 <= 0 - maxi < |ggreed| && 0 - (0 - maxi) == maxi;
      }
    }

    /** gin's test of position p: are the cells for the pairs free? ok is false when the array
        overflows. maxa grows even when the test fails. */
    method FreeAt(pairs: seq<(int, int)>, p: nat) returns (ok: bool, free: bool)
      requires amem.Length == ACTSIZE && 0 <= maxa < ACTSIZE && forall r :: 0 <= r < |pairs| ==> pairs[r].0 >= 0
      modifies `maxa
      ensures old(maxa) <= maxa && (ok ==> maxa < ACTSIZE)
      ensures maxa == old(maxa) || exists r :: 0 <= r < |pairs| && maxa == p + pairs[r].0 + 1
      ensures ok && free ==> forall r :: 0 <= r < |pairs| ==>
        p + pairs[r].0 + 1 <= maxa && CellIs(amem[..], p + pairs[r].0 + 1, 0)
      ensures !ok ==> exists r :: 0 <= r < |pairs| && p + pairs[r].0 + 1 >= ACTSIZE
      ensures ok && !free ==> exists r :: 0 <= r < |pairs| && !CellIs(amem[..], p + pairs[r].0 + 1, 0)
    {
      for r := 0 to |pairs|
        invariant old(maxa) <= maxa < ACTSIZE
        invariant maxa == old(maxa) || exists k :: 0 <= k < r && maxa == p + pairs[k].0 + 1
        invariant forall k :: 0 <= k < r ==> p + pairs[k].0 + 1 <= maxa && CellIs(amem[..], p + pairs[k].0 + 1, 0)
      {
        var s := p + pairs[r].0 + 1;
        if s > maxa {
          maxa := s;
          if maxa >= ACTSIZE {
            assert p + pairs[r].0 + 1 >= ACTSIZE;
            return false, false;
          }
        }
        if amem[s] != 0 {
          assert !CellIs(amem[..], p + pairs[r].0 + 1, 0);
          return true, false;
        }
      }
      return true, true;
    }

    /** The loops that store the pairs, shifted by d. */
    method StorePairs(pairs: seq<(int, int)>, d: int, ghost n: int)
      requires Increasing(pairs, n) && forall r :: 0 <= r < |pairs| ==> 0 <= pairs[r].0 + d < amem.Length
      modifies amem
      ensures PairsStored(old(amem[..]), amem[..], pairs, d, |pairs|)
    {
      ghost var was := amem[..];
      for r := 0 to |pairs|
        invariant PairsStored(was, amem[..], pairs, d, r)
      {
        ghost var mem := amem[..];
        amem[pairs[r].0 + d] := pairs[r].1;
        PairStored(was, mem, amem[..], pairs, d, r, n);
      }
    }

    /** The end of gin: the column is stored at p, where its cells are free. */
    method StoreColumn(i: nat, p: nat, ghost ggreed0: seq<int>)
      requires Mine() && JobOk(b) && amem.Length == ACTSIZE && 1 <= i <= b.nnonter && |ggreed0| == b.nnonter + 1
      requires ggreed0[i] != 0 && ggreed == ggreed0[i := 0] && Layout(b, amem[..], indgo, pgo, ggreed0)
      requires p < amem.Length && amem[p] == 0 && 0 <= maxa < amem.Length && |pgo| == b.nnonter + 1
      requires forall q :: maxa < q < amem.Length ==> amem[q] == 0
      requires forall r :: 0 <= r < |b.yypgo[i].pairs| ==>
        p + b.yypgo[i].pairs[r].0 + 1 <= maxa && CellIs(amem[..], p + b.yypgo[i].pairs[r].0 + 1, 0)
      modifies `pgo, `maxa, amem
      ensures Layout(b, amem[..], indgo, pgo, ggreed) && pgo == old(pgo)[i := p]
      ensures maxa == if p > old(maxa) then p else old(maxa)
      ensures forall q :: maxa < q < amem.Length ==> amem[q] == 0
    {
      hide JobOk, Layout, GotosOk, GotosRead, PairsStored, Kept;
      ghost var was := amem[..];
      JobGotos(b, i);
      var q := yypgo[i];
      GotoKeys(b, i, q);
      amem[p] := q.best;
      if p > maxa {
        maxa := p;
      }
      ghost var mid := amem[..];
      StorePairs(q.pairs, p + 1, |b.optst|);
      pgo := pgo[i := p];
      ColumnStored(b, was, mid, amem[..], i, p, maxa);
      assert forall x :: maxa < x < amem.Length ==> amem[..][x] == 0;
      LayoutAfterColumn(b, was, amem[..], indgo, old(pgo), ggreed0, i, p);
    }

    /** gin: finds room for the gotos of nonterminal i and stores them. */
    method Gin(i: nat) returns (ok: bool)
      requires Valid() && 1 <= i <= b.nnonter && ggreed[i] > 0
      modifies `ggreed, `pgo, `maxa, amem
      ensures ok ==> Valid() && ggreed == old(ggreed)[i := 0]
      ensures ok ==> FirstFree(old(amem[..]), b.yypgo[i], pgo[i]) && pgo == old(pgo)[i := pgo[i]]
      ensures !ok ==> amem[..] == old(amem[..]) && pgo == old(pgo) && NoPlaceForColumn(amem[..], b.yypgo[i])
    {
      hide JobOk, Layout, Queued, GotosOk, GotosRead, PairsStored, Kept, FromOff, ColumnFree, NoPlaceForColumn,
        ColumnSpan, Snug, Bounded, FirstFree, CellIs;
      ValidSizes();
      JobGotos(b, i);
      ghost var was, ggreed0, pgo0, maxa0 := amem[..], ggreed, pgo, maxa;
      ggreed := ggreed[i := 0];
      var q := yypgo[i];
      GotoKeys(b, i, q);
      NoneBelow(was, q);
      SpansPositive(b);
      if maxa0 + ColumnSpan(q) < ACTSIZE {
        ColumnRoom(b, was, pgo, ggreed0, maxa0, i);
      }
      for p := 0 to ACTSIZE
        invariant amem[..] == was && ggreed == ggreed0[i := 0] && pgo == pgo0
        invariant maxa0 <= maxa < ACTSIZE && maxa <= maxa0 + ColumnSpan(q)
        invariant forall k :: k < p ==> !ColumnFree(was, q.pairs, k)
      {
        assert maxa0 + ColumnSpan(q) < ACTSIZE ==> p <= maxa0 + 1;
        ghost var top := maxa;
        NotFree(was, q, p);
        if amem[p] != 0 {
          continue;
        }
        var free;
        ok, free := FreeAt(q.pairs, p);
        if !ok {
          PastTheEnd(was, q, p);
          return;
        }
        ColumnReach(b, i, q, p, maxa0, top, maxa);
        if !free {
          continue;
        }
        FreeHere(was, q, p);
        StoreColumn(i, p, ggreed0);
        BoundedAfterColumn(was, amem[..], pgo0, ggreed0, maxa0, i, p, maxa);
        StillQueued(b, tystate, ggreed0, indgo, i);
        SnugAfterColumn(b, tystate, ggreed0, maxa0, i, maxa);
        return true;
      }
      PastTheEnd(was, q, ACTSIZE);
      return false;
    }

    lemma ValidSizes()
      requires Valid()
      ensures Mine() && |indgo| == |b.optst| == |tystate| && |pgo| == |ggreed| == |b.yypgo| == b.nnonter + 1
      ensures 0 <= maxa < amem.Length && forall q :: maxa < q < amem.Length ==> amem[q] == 0
    {
      assert forall q :: maxa < q < amem.Length ==> amem[..][q] == 0;
    }

    /** stin's test of position n: free counts the cells that are not filled yet. The bound it
        tests lets one cell past the end through. */
    method TryShifts(q: seq<(int, int)>, n: int) returns (trial: Placing, free: nat)
      requires amem.Length == ACTSIZE && ShiftsOk(b, q)
      ensures trial == Placed <==> ShiftsFit(amem[..], q, n)
      ensures trial == Placed ==> (free == 0 <==> ShiftsAt(amem[..], q, n))
      ensures trial == PastEnd <==> PastEndAt(amem[..], q, n)
    {
      free := 0;
      for r := 0 to |q|
        invariant FitUpTo(amem[..], q, n, r)
        invariant free == 0 <==> forall k :: 0 <= k < r ==> CellIs(amem[..], q[k].0 + n, q[k].1)
      {
        assert EnteredOn(b, q[r].1, q[r].0);
        var s := q[r].0 + n;
        if s < 0 || s > ACTSIZE {
          NotPast(amem[..], q, n, r);
          return NoPlace, free;
        }
        if s == ACTSIZE {
          assert PastEndAt(amem[..], q, n);
          return PastEnd, free;
        }
        if amem[s] == 0 {
          free := free + 1;
        } else if amem[s] != q[r].1 {
          NotPast(amem[..], q, n, r);
          return NoPlace, free;
        }
      }
      trial := Placed;
    }

    /** stin's check that position n equals another only if the states are identical. */
    method LookAround(q: seq<(int, int)>, n: int, free: nat) returns (clash: bool, same: bool)
      requires |indgo| == |optst|
      ensures !clash && !same ==> NobodyAt(indgo, n)
      ensures same ==> !clash && free == 0 && exists j :: 0 <= j < |indgo| && indgo[j] == n && |optst[j]| == |q|
      ensures clash ==> exists j :: 0 <= j < |indgo| && indgo[j] == n && (free != 0 || |optst[j]| != |q|)
    {
      for j := 0 to |indgo|
        invariant forall k :: 0 <= k < j ==> indgo[k] != n
      {
        if indgo[j] == n {
          if free != 0 {
            return true, false;
          }
          if |q| == |optst[j]| {
            return false, true;
          }
          return true, false;
        }
      }
      return false, false;
    }

    /** The part of stin's last loop that keeps maxa. */
    method RaiseMaxa(q: seq<(int, int)>, n: int)
      requires amem.Length == ACTSIZE && 0 <= maxa < ACTSIZE && forall r :: 0 <= r < |q| ==>
        0 <= q[r].0 + n < amem.Length
      modifies `maxa
      ensures old(maxa) <= maxa < ACTSIZE && forall r :: 0 <= r < |q| ==> q[r].0 + n <= maxa
      ensures maxa == old(maxa) || exists r :: 0 <= r < |q| && maxa == q[r].0 + n
    {
      for r := 0 to |q|
        invariant old(maxa) <= maxa < ACTSIZE && forall k :: 0 <= k < r ==> q[k].0 + n <= maxa
        invariant maxa == old(maxa) || exists k :: 0 <= k < r && maxa == q[k].0 + n
      {
        var s := q[r].0 + n;
        if s > maxa {
          maxa := s;
        }
      }
    }

    /** stin: finds a place for the shifts of state i and stores them. */
    method Stin(i: nat) returns (outcome: Placing)
      requires Valid() && i < |b.optst| && tystate[i] > 0
      modifies `tystate, `indgo, `maxa, amem
      ensures |b.optst| == |indgo| == |old(indgo)|
      ensures outcome == Placed ==> Valid() && tystate == old(tystate)[i := 0]
      ensures outcome == Placed ==>
        FirstPlace(b, old(amem[..]), old(indgo), i, indgo[i]) && indgo == old(indgo)[i := indgo[i]]
      ensures outcome == Placed <==> !NoPlaceFor(b, old(amem[..]), old(indgo), i)
      ensures outcome == PastEnd <==>
        NoPlaceFor(b, old(amem[..]), old(indgo), i) && RunsPast(old(amem[..]), b.optst[i], maxoff)
      ensures outcome != Placed ==> amem[..] == old(amem[..]) && indgo == old(indgo)
    {
      hide JobOk, Layout, Queued, ShiftsAt, ShiftsFit, PairsStored, Kept, NobodyAt, Clash, FromOff, PastEndAt,
        StateSpan, Snug, CellIs, Bounded;
      ValidSizes();
      JobShifts(b, i);
      QueuedState(b, tystate, ggreed, indgo, i);
      ghost var was, tystate0, indgo0, maxa0 := amem[..], tystate, indgo, maxa;
      tystate := tystate[i := 0];
      var q := optst[i];
      BeforeOff(b, was, i, maxoff);
      if maxa0 + StateSpan(q) < ACTSIZE {
        StateRoom(b, was, indgo, pgo, tystate0, ggreed, maxa0, i);
      }
      for n := 0 - maxoff to ACTSIZE
        invariant amem[..] == was && tystate == tystate0[i := 0] && indgo == indgo0 && maxa == maxa0
        invariant forall k :: k < n && ShiftsFit(was, q, k) ==> Clash(b, was, indgo0, i, k)
        invariant forall k :: 0 - maxoff <= k < n ==> !PastEndAt(was, q, k)
      {
        var trial, free := TryShifts(q, n);
        if trial == PastEnd {
          PastShifts(b, was, q, n);
          return PastEnd;
        }
        if trial == NoPlace {
          continue;
        }
        FitRange(b, was, q, n);
        var clash, same := LookAround(q, n, free);
        if clash {
          Clashes(b, was, indgo, i, n, free);
          continue;
        }
        if same {
          SharedShifts(b, was, indgo, pgo, ggreed, i, n);
          NoClash(b, was, indgo, i, n);
          indgo := indgo[i := n];
          LayoutAfterState(b, was, was, indgo0, pgo, ggreed, i, n);
          StateDequeued(b, tystate0, ggreed, indgo0, i, n);
          StateReach(b, i, 0 - 1, maxa0);
          SnugAfterState(b, tystate0, ggreed, maxa0, i, maxa);
          return Placed;
        }
        StorePairs(q, n, b.ntokens + 1);
        RaiseMaxa(q, n);
        indgo := indgo[i := n];
        StateStored(b, was, amem[..], i, n, maxa);
        AloneAlike(b, indgo0, i, n);
        NobodyClashes(b, was, indgo0, i, n);
        LayoutAfterState(b, was, amem[..], indgo0, pgo, ggreed, i, n);
        StateDequeued(b, tystate0, ggreed, indgo0, i, n);
        StateReach(b, i, n, maxa0);
        BoundedAfterState(was, amem[..], pgo, ggreed, maxa0, maxa);
        SnugAfterState(b, tystate0, ggreed, maxa0, i, maxa);
        return Placed;
      }
      ShiftsPastTheEnd(b, was, q, ACTSIZE);
      return NoPlace;
    }

    /** The end of callopt: everything is placed, or something that waits has no place. There is
        room for every job whose spans add up to less than the length of the array. */
    method Callopt() returns (outcome: Placing)
      requires Valid()
      modifies this, amem
      ensures outcome == Placed ==> Valid() && Open(tystate, ggreed) == {}
      ensures outcome != Placed ==>
        exists ty, gg, top :: Stuck(b, amem[..], indgo, pgo, ty, gg, top, maxoff, outcome)
      ensures Demand(b) < ACTSIZE ==> outcome == Placed
    {
      hide JobOk, Layout, Queued, Bounded, FromOff, NoPlaceFor, NoPlaceForColumn, RunsPast, Snug, Demand;
      JobCounts(b);
      var i := Nxti();
      while i != NOMORE
        invariant Valid() && (i != NOMORE ==> i in Open(tystate, ggreed))
        invariant (i == NOMORE ==> Open(tystate, ggreed) == {})
        decreases Open(tystate, ggreed)
      {
        ghost var open, ty, gg, top := Open(tystate, ggreed), tystate, ggreed, maxa;
        ValidSizes();
        assert LaidSoFar(b, amem[..], indgo, pgo, ty, gg, top, maxoff);
        if i >= 0 {
          QueuedState(b, tystate, ggreed, indgo, i);
          FirstToken(b, i);
          AlwaysRunsPast(amem[..], b.optst[i], maxoff);
          outcome := Stin(i);
          if outcome != Placed {
            assert StateStuck(b, amem[..], indgo, pgo, ty, gg, top, maxoff, i);
            StuckDemand(b, amem[..], indgo, pgo, ty, gg, top, maxoff, outcome);
            return;
          }
        } else {
          var ok := Gin(0 - i);
          if !ok {
            assert ColumnStuck(b, amem[..], indgo, pgo, ty, gg, top, maxoff, 0 - i);
            outcome := NoPlace;
            StuckDemand(b, amem[..], indgo, pgo, ty, gg, top, maxoff, outcome);
            return;
          }
        }
        OpenLess(ty, gg, tystate, ggreed, i);
        i := Nxti();
      }
      ValidSizes();
      outcome := Placed;
    }
  }

  /** The smallest token that a state shifts is a token of the array. */
  lemma FirstToken(b: Job, i: nat)
    requires JobOk(b) && i < |b.optst| && b.optst[i] != []
    ensures 0 < b.optst[i][0].0 <= ACTSIZE
  {
    assert ShiftsOk(b, b.optst[i]) && EnteredOn(b, b.optst[i][0].1, b.optst[i][0].0);
  }

  /** While there is room, a test of gin raises maxa no further than the column reaches. */
  lemma ColumnReach(b: Job, c: nat, e: Goent, p: int, maxa0: int, maxa: int, maxa': int)
    requires JobOk(b) && 1 <= c <= b.nnonter && e == b.yypgo[c]
    requires maxa0 + ColumnSpan(e) < ACTSIZE ==> p <= maxa0 + 1
    requires maxa <= maxa0 + ColumnSpan(e) && p < ACTSIZE && maxa' < ACTSIZE
    requires maxa' == maxa || exists r :: 0 <= r < |e.pairs| && maxa' == p + e.pairs[r].0 + 1
    ensures maxa' <= maxa0 + ColumnSpan(e) && p <= maxa0 + ColumnSpan(e)
  {
    assert GotosOk(b, c, e);
    forall r | 0 <= r < |e.pairs|
      ensures e.pairs[r].0 <= e.pairs[|e.pairs| - 1].0
    {
      assert r < |e.pairs| - 1 ==> e.pairs[r].0 < e.pairs[|e.pairs| - 1].0;
    }
  }

  /** While there is room, the shifts of a state reach no further than their span. */
  lemma StateReach(b: Job, i: nat, n: int, maxa: int)
    requires JobOk(b) && i < |b.optst|
    ensures forall r :: 0 <= r < |b.optst[i]| && n <= maxa + 1 ==> b.optst[i][r].0 + n <= maxa + StateSpan(b.optst[i])
    ensures 0 <= StateSpan(b.optst[i])
  {
    var q := b.optst[i];
    assert ShiftsOk(b, q);
    forall r | 0 <= r < |q|
      ensures q[r].0 <= q[|q| - 1].0
    {
      assert r < |q| - 1 ==> q[r].0 < q[|q| - 1].0;
    }
  }

  lemma JobCounts(b: Job)
    requires JobOk(b)
    ensures b.nnonter < 1000 && |b.yypgo| == b.nnonter + 1
  {
  }

  lemma OpenLess(ty: seq<int>, gg: seq<int>, ty': seq<int>, gg': seq<int>, i: int)
    requires i in Open(ty, gg)
    requires if i >= 0 then i < |ty| && ty' == ty[i := 0] && gg' == gg
             else 0 - i < |gg| && gg' == gg[0 - i := 0] && ty' == ty
    ensures Open(ty', gg') < Open(ty, gg)
  {
    assert i !in Open(ty', gg');
    forall x | x in Open(ty', gg')
      ensures x in Open(ty, gg)
    {
    }
  }

  lemma QueuedState(b: Job, tystate: seq<int>, ggreed: seq<int>, indgo: seq<int>, i: nat)
    requires Queued(b, tystate, ggreed, indgo) && i < |tystate| && tystate[i] > 0
    ensures i < |b.optst| && b.optst[i] != [] && indgo[i] == YYFLAG
  {
    assert StateQueued(b, tystate, indgo, i);
  }

  lemma StateDequeued(b: Job, tystate: seq<int>, ggreed: seq<int>, indgo: seq<int>, i: nat, n: int)
    requires Queued(b, tystate, ggreed, indgo) && i < |tystate| && tystate[i] > 0 && n != YYFLAG
    ensures Queued(b, tystate[i := 0], ggreed, indgo[i := n])
  {
    assert StateQueued(b, tystate, indgo, i);
    var tystate', indgo' := tystate[i := 0], indgo[i := n];
    forall k | 0 <= k < |tystate|
      ensures StateQueued(b, tystate', indgo', k)
    {
      assert StateQueued(b, tystate, indgo, k);
    }
  }

  /** A place that fits is never mistaken for the mark of a state without shifts. */
  lemma FitRange(b: Job, mem: seq<int>, q: seq<(int, int)>, n: int)
    requires JobOk(b) && ShiftsOk(b, q) && ShiftsFit(mem, q, n) && q != []
    ensures n > YYFLAG && forall r :: 0 <= r < |q| ==> 0 <= q[r].0 + n < |mem|
  {
    assert 0 <= q[0].0 + n;
  }

  lemma NoneBelow(mem: seq<int>, e: Goent)
    ensures forall k :: k < 0 ==> !ColumnFree(mem, e.pairs, k)
  {
  }

  lemma FreeHere(mem: seq<int>, e: Goent, p: nat)
    requires p < |mem| && mem[p] == 0 && forall r :: 0 <= r < |e.pairs| ==> CellIs(mem, p + e.pairs[r].0 + 1, 0)
    requires forall k :: k < p ==> !ColumnFree(mem, e.pairs, k)
    ensures FirstFree(mem, e, p)
  {
  }

  lemma NotFree(mem: seq<int>, e: Goent, p: nat)
    requires p < |mem|
    ensures mem[p] != 0 ==> !ColumnFree(mem, e.pairs, p)
    ensures forall r :: 0 <= r < |e.pairs| && !CellIs(mem, p + e.pairs[r].0 + 1, 0) ==> !ColumnFree(mem, e.pairs, p)
  {
  }

  /** From where a pair lies past the end, the column does not fit any more. */
  lemma PastTheEnd(mem: seq<int>, e: Goent, p: nat)
    requires |mem| == ACTSIZE && (p == ACTSIZE || exists r :: 0 <= r < |e.pairs| && p + e.pairs[r].0 + 1 >= ACTSIZE)
    requires forall k :: k < p ==> !ColumnFree(mem, e.pairs, k)
    ensures NoPlaceForColumn(mem, e)
  {
    forall k | k >= p
      ensures !ColumnFree(mem, e.pairs, k)
    {
      if p < ACTSIZE {
        var r :| 0 <= r < |e.pairs| && p + e.pairs[r].0 + 1 >= ACTSIZE;
        assert !CellIs(mem, k + e.pairs[r].0 + 1, 0);
      }
    }
  }

  /** In front of -maxoff a shift would lie before the beginning. */
  lemma BeforeOff(b: Job, mem: seq<int>, i: nat, maxoff: nat)
    requires FromOff(b, maxoff) && i < |b.optst| && b.optst[i] != []
    ensures forall n :: n < 0 - maxoff ==> !ShiftsFit(mem, b.optst[i], n)
  {
    forall n | n < 0 - maxoff
      ensures !ShiftsFit(mem, b.optst[i], n)
    {
      assert b.optst[i][0].0 + n < 0;
    }
  }

  /** From where a shift lies past the end, the shifts do not fit any more. */
  lemma ShiftsPastTheEnd(b: Job, mem: seq<int>, q: seq<(int, int)>, n: int)
    requires |mem| == ACTSIZE && q != [] && ShiftsOk(b, q)
    requires n >= ACTSIZE || exists r :: 0 <= r < |q| && q[r].0 + n >= ACTSIZE
    ensures forall k :: k >= n ==> !ShiftsFit(mem, q, k)
  {
    var r :| 0 <= r < |q| && q[r].0 + n >= ACTSIZE;
    forall k | k >= n
      ensures !ShiftsFit(mem, q, k)
    {
      assert q[r].0 + k >= |mem|;
    }
  }

  lemma NotPast(mem: seq<int>, q: seq<(int, int)>, n: int, r: nat)
    requires r < |q| && FitUpTo(mem, q, n, r) && q[r].0 + n != |mem|
    requires q[r].0 + n < 0 || q[r].0 + n > |mem| || (mem[q[r].0 + n] != 0 && mem[q[r].0 + n] != q[r].1)
    ensures !PastEndAt(mem, q, n)
  {
  }

  /** A test that runs past the end ends the search: nothing fits here or behind. */
  lemma PastShifts(b: Job, mem: seq<int>, q: seq<(int, int)>, n: int)
    requires |mem| == ACTSIZE && q != [] && ShiftsOk(b, q) && PastEndAt(mem, q, n)
    ensures forall k :: k >= n ==> !ShiftsFit(mem, q, k)
  {
    ShiftsPastTheEnd(b, mem, q, n);
  }

  lemma NoClash(b: Job, mem: seq<int>, indgo: seq<int>, i: nat, n: int)
    requires i < |b.optst| == |indgo| && ShiftsAt(mem, b.optst[i], n)
    requires forall j :: 0 <= j < |indgo| && indgo[j] == n ==> b.optst[j] == b.optst[i]
    ensures !Clash(b, mem, indgo, i, n)
  {
  }

  lemma NobodyClashes(b: Job, mem: seq<int>, indgo: seq<int>, i: nat, n: int)
    requires i < |b.optst| == |indgo| && NobodyAt(indgo, n)
    ensures !Clash(b, mem, indgo, i, n)
  {
  }

  lemma Clashes(b: Job, mem: seq<int>, indgo: seq<int>, i: nat, n: int, free: nat)
    requires i < |b.optst| == |indgo| && (free == 0 <==> ShiftsAt(mem, b.optst[i], n))
    requires exists j :: 0 <= j < |indgo| && indgo[j] == n && (free != 0 || |b.optst[j]| != |b.optst[i]|)
    ensures Clash(b, mem, indgo, i, n)
  {
  }

  lemma SharedShifts(b: Job, mem: seq<int>, indgo: seq<int>, pgo: seq<int>, ggreed: seq<int>, i: nat, n: int)
    requires JobOk(b) && Layout(b, mem, indgo, pgo, ggreed) && i < |indgo| && n > YYFLAG && ShiftsAt(mem, b.optst[i], n)
    requires exists j :: 0 <= j < |indgo| && indgo[j] == n && |b.optst[j]| == |b.optst[i]|
    ensures forall j :: 0 <= j < |indgo| && indgo[j] == n ==> b.optst[j] == b.optst[i]
    ensures Kept(mem, mem)
  {
    var h :| 0 <= h < |indgo| && indgo[h] == n && |b.optst[h]| == |b.optst[i]|;
    SameLengthSameShifts(b, mem, indgo, pgo, ggreed, i, h);
    forall j | 0 <= j < |indgo| && indgo[j] == n
      ensures b.optst[j] == b.optst[h]
    {
    }
  }

  lemma AloneAlike(b: Job, indgo: seq<int>, i: nat, n: int)
    requires |indgo| == |b.optst| && NobodyAt(indgo, n) && i < |indgo|
    ensures forall j :: 0 <= j < |indgo| && indgo[j] == n ==> b.optst[j] == b.optst[i]
  {
  }

  lemma StateStored(b: Job, was: seq<int>, mem: seq<int>, i: nat, n: int, maxa: int)
    requires i < |b.optst| && ShiftsFit(was, b.optst[i], n) && PairsStored(was, mem, b.optst[i], n, |b.optst[i]|)
    requires Increasing(b.optst[i], b.ntokens + 1) && maxa >= 0
    requires forall q :: maxa < q < |was| ==> was[q] == 0
    requires forall r :: 0 <= r < |b.optst[i]| ==> b.optst[i][r].0 + n <= maxa
    ensures |mem| == |was| && Kept(was, mem) && ShiftsAt(mem, b.optst[i], n)
    ensures forall q :: maxa < q < |mem| ==> mem[q] == 0
    ensures forall q :: 0 <= q < |mem| && mem[q] != was[q] ==> Among(b.optst[i], q - n, mem[q], |b.optst[i]|)
  {
    var pairs := b.optst[i];
    forall q | 0 <= q < |mem| && mem[q] != was[q]
      ensures was[q] == 0 && q <= maxa
    {
      assert Among(pairs, q - n, mem[q], |pairs|);
      var r :| 0 <= r < |pairs| && pairs[r] == (q - n, mem[q]);
      assert pairs[r].0 + n == q;
    }
    forall r | 0 <= r < |pairs|
      ensures CellIs(mem, pairs[r].0 + n, pairs[r].1)
    {
    }
  }

  lemma PairStored(was: seq<int>, mem: seq<int>, mem': seq<int>, pairs: seq<(int, int)>, d: int, r: nat, n: int)
    requires PairsStored(was, mem, pairs, d, r) && r < |pairs| && Increasing(pairs, n) && 0 <= pairs[r].0 + d < |mem|
    requires mem' == mem[pairs[r].0 + d := pairs[r].1]
    ensures PairsStored(was, mem', pairs, d, r + 1)
  {
    forall k | 0 <= k < r + 1
      ensures CellIs(mem', pairs[k].0 + d, pairs[k].1)
    {
      assert k < r ==> CellIs(mem, pairs[k].0 + d, pairs[k].1) && pairs[k].0 < pairs[r].0;
    }
    forall q | 0 <= q < |mem'| && mem'[q] != was[q]
      ensures Among(pairs, q - d, mem'[q], r + 1)
    {
      if q == pairs[r].0 + d {
        assert pairs[r] == (q - d, mem'[q]);
      } else {
        assert Among(pairs, q - d, mem[q], r);
      }
    }
  }

  lemma GotoKeys(b: Job, c: nat, e: Goent)
    requires GotosOk(b, c, e)
    ensures Increasing(e.pairs, |b.optst|) && forall r :: 0 <= r < |e.pairs| ==> e.pairs[r].0 >= 0
  {
  }

  /** The default and then the pairs of column c have been stored in free cells. */
  lemma ColumnStored(b: Job, was: seq<int>, mid: seq<int>, mem: seq<int>, c: nat, p: nat, maxa: int)
    requires JobOk(b) && 1 <= c <= b.nnonter && p < |was| && was[p] == 0 && mid == was[p := b.yypgo[c].best]
    requires forall r :: 0 <= r < |b.yypgo[c].pairs| ==>
      p + b.yypgo[c].pairs[r].0 + 1 <= maxa && CellIs(was, p + b.yypgo[c].pairs[r].0 + 1, 0)
    requires PairsStored(mid, mem, b.yypgo[c].pairs, p + 1, |b.yypgo[c].pairs|) && p <= maxa
    requires forall q :: maxa < q < |was| ==> was[q] == 0
    ensures |mem| == |was| && Kept(was, mem) && GotosRead(mem, b.yypgo[c], p)
    ensures forall q :: maxa < q < |mem| ==> mem[q] == 0
    ensures forall q :: 0 <= q < |mem| && mem[q] != was[q] ==>
      (q == p && mem[q] == b.yypgo[c].best) || Among(b.yypgo[c].pairs, q - p - 1, mem[q], |b.yypgo[c].pairs|)
  {
    var pairs := b.yypgo[c].pairs;
    JobGotos(b, c);
    forall q | 0 <= q < |mem| && mem[q] != was[q]
      ensures was[q] == 0 && q <= maxa
      ensures ((q == p && mem[q] == b.yypgo[c].best) || Among(pairs, q - p - 1, mem[q], |pairs|))
    {
      if mem[q] != mid[q] {
        assert Among(pairs, q - (p + 1), mem[q], |pairs|);
        var r :| 0 <= r < |pairs| && pairs[r] == (q - (p + 1), mem[q]);
        assert CellIs(was, p + pairs[r].0 + 1, 0);
      }
    }
    forall r | 0 <= r < |pairs|
      ensures CellIs(mem, p + pairs[r].0 + 1, pairs[r].1)
    {
      assert CellIs(mem, pairs[r].0 + (p + 1), pairs[r].1);
    }
    assert !Among(pairs, p - (p + 1), mem[p], |pairs|);
  }

  lemma BoundedAfterColumn(was: seq<int>, mem: seq<int>, pgo: seq<int>, ggreed: seq<int>, maxa: int, c: nat, p: nat,
                           maxa': int)
    requires |pgo| == |ggreed| && Bounded(was, pgo, ggreed, maxa) && 1 <= c < |pgo|
    requires maxa <= maxa' < |mem| && p <= maxa' && forall q :: maxa' < q < |mem| ==> mem[q] == 0
    ensures Bounded(mem, pgo[c := p], ggreed[c := 0], maxa')
  {
  }

  lemma BoundedAfterState(was: seq<int>, mem: seq<int>, pgo: seq<int>, ggreed: seq<int>, maxa: int, maxa': int)
    requires |pgo| == |ggreed| && Bounded(was, pgo, ggreed, maxa)
    requires maxa <= maxa' < |mem| && forall q :: maxa' < q < |mem| ==> mem[q] == 0
    ensures Bounded(mem, pgo, ggreed, maxa')
  {
  }

  lemma StillQueued(b: Job, tystate: seq<int>, ggreed: seq<int>, indgo: seq<int>, c: nat)
    requires Queued(b, tystate, ggreed, indgo) && 1 <= c < |ggreed|
    ensures Queued(b, tystate, ggreed[c := 0], indgo)
  {
  }

  lemma NothingLaid(b: Job, mem: seq<int>, indgo: seq<int>, pgo: seq<int>, ggreed: seq<int>)
    requires |indgo| == |b.optst| && |pgo| == |ggreed| == |b.yypgo| == b.nnonter + 1
    requires (forall k :: 0 <= k < |indgo| ==> indgo[k] == YYFLAG) && (forall c :: 1 <= c < |ggreed| ==> ggreed[c] > 0)
    requires forall q :: 0 <= q < |mem| ==> mem[q] == 0
    ensures Layout(b, mem, indgo, pgo, ggreed)
  {
  }
}
