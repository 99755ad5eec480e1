/** The action row of a state (output, precftn, wract in cmd/goyacc/yacc.go). Module Actions
    says what a row means, module RowWriting builds and compresses it. */
module Actions {
  import opened Grammars
  import opened Items
  import opened WorkingSets

  const ERRCODE := 8190
  const ACCEPTCODE := 8191

  const LASC := 1
  const RASC := 2
  const BASC := 3

  function Assoc(level: nat): nat {
    level % 4
  }

  function Plevel(level: nat): nat {
    level / 16 % 64
  }

  /** How a token's or rule's precedence is packed: associativity in the lowest two bits, then two
      flags, six bits for the level, and above them the number of the type. */
  function PackedLevel(ty: nat, p: nat, flags: nat, a: nat): nat {
    1024 * ty + 16 * p + 4 * flags + a
  }

  /** Level p and associativity a are packed in it, with some flags and some type. */
  ghost predicate Packs(level: nat, p: nat, a: nat) {
    p < 64 && a < 4 && exists ty: nat, flags: nat :: flags < 4 && level == PackedLevel(ty, p, flags, a)
  }

  /** The fields come back, and there are no others. */
  lemma PackedFields(level: nat, p: nat, a: nat)
    ensures Packs(level, p, a) <==> Plevel(level) == p && Assoc(level) == a
  {
    hide Plevel, Assoc;
    forall ty: nat, flags: nat | flags < 4 && p < 64 && a < 4 && level == PackedLevel(ty, p, flags, a)
      ensures Plevel(level) == p && Assoc(level) == a
    {
      Unpacked(ty, p, flags, a);
    }
    LevelIsPacked(level);
  }

  lemma Unpacked(ty: nat, p: nat, flags: nat, a: nat)
    requires p < 64 && flags < 4 && a < 4
    ensures Plevel(PackedLevel(ty, p, flags, a)) == p && Assoc(PackedLevel(ty, p, flags, a)) == a
  {
    var level := PackedLevel(ty, p, flags, a);
    assert level / 16 == 64 * ty + p;
    assert level == 4 * (256 * ty + 4 * p + flags) + a;
  }

  lemma LevelIsPacked(level: nat)
    ensures Plevel(level) < 64 && Assoc(level) < 4
    ensures level == PackedLevel(level / 1024, Plevel(level), level / 4 % 4, Assoc(level))
  {
    var q := level / 16;
    assert level / 4 / 4 == q && q / 64 == level / 1024;
  }

  // ------------------------------------------------------------------ conflicts

  /** What a conflict comes to: a token of precedence p and associativity a (1 left, 2 right, 3
      none) against a rule of precedence q; no precedence is 0. */
  function Verdict(p: nat, a: nat, q: nat, r: int, shift: int): int {
    if p == 0 || q == 0 || p > q then shift
    else if p < q || a == 1 then 0 - r
    else if a == 3 then ERRCODE
    else shift
  }

  ghost predicate Judged(lp: nat, lt: nat, r: int, shift: int, action: int) {
    forall p, a, q, b :: Packs(lt, p, a) && Packs(lp, q, b) ==> action == Verdict(p, a, q, r, shift)
  }

  lemma ResolveJudges(lp: nat, lt: nat, r: int, shift: int)
    ensures Judged(lp, lt, r, shift, Resolve(lp, lt, r, shift))
  {
    forall p, a, q, b | Packs(lt, p, a) && Packs(lp, q, b)
      ensures Resolve(lp, lt, r, shift) == Verdict(p, a, q, r, shift)
    {
      PackedFields(lt, p, a);
      PackedFields(lp, q, b);
    }
  }

  /** precftn: what becomes of action a (a shift, or a code) on a token of level lt, against
      a reduction by rule r of level lp. */
  function Resolve(lp: nat, lt: nat, r: int, a: int): int {
    if Plevel(lt) == 0 || Plevel(lp) == 0 then a
    else
      var action := if Plevel(lt) == Plevel(lp) then Assoc(lt) else if Plevel(lt) > Plevel(lp) then RASC else LASC;
      if action == BASC then ERRCODE else if action == LASC then 0 - r else a
  }

  /** The effect of one possible reduction on the entry of a token. */
  function Settle(lp: nat, lt: nat, r: int, a: int): int {
    if a == 0 then 0 - r
    else if a < 0 then (if 0 - a > r then 0 - r else a)
    else Resolve(lp, lt, r, a)
  }

  ghost predicate Reducing(w: Wset, t: nat) {
    w.pitem.first <= 0 && t in w.ws
  }

  /** The packed level of rule or token r; none is 0. */
  function Level(levels: seq<nat>, r: int): (level: nat)
    ensures 0 <= r < |levels| ==> level == levels[r]
  {
    if 0 <= r < |levels| then levels[r] else 0
  }

  /** The effect of the reductions among the first n entries on the entry a of token t. */
  ghost function SettleAll(levprd: seq<nat>, lt: nat, ws: seq<Wset>, n: nat, t: nat, a: int): int
    requires n <= |ws|
  {
    if n == 0 then a
    else SettleOne(levprd, lt, ws[n - 1], t, SettleAll(levprd, lt, ws, n - 1, t, a))
  }

  ghost function SettleOne(levprd: seq<nat>, lt: nat, w: Wset, t: nat, a: int): int {
    if Reducing(w, t) then Settle(Level(levprd, 0 - w.pitem.first), lt, 0 - w.pitem.first, a) else a
  }

  /** Some entry among the first n reduces by r on t. */
  ghost predicate ReducedBy(ws: seq<Wset>, n: nat, t: nat, r: int) {
    exists k :: 0 <= k < n && k < |ws| && Reducing(ws[k], t) && 0 - ws[k].pitem.first == r
  }

  lemma ReducedUnfold(ws: seq<Wset>, n: nat, t: nat, r: int)
    requires n < |ws|
    ensures ReducedBy(ws, n + 1, t, r) <==> ReducedBy(ws, n, t, r) || (Reducing(ws[n], t) && 0 - ws[n].pitem.first == r)
  {
    if ReducedBy(ws, n + 1, t, r) {
      var k :| 0 <= k < n + 1 && Reducing(ws[k], t) && 0 - ws[k].pitem.first == r;
      assert k < n ==> ReducedBy(ws, n, t, r);
    }
    if ReducedBy(ws, n, t, r) {
      var k :| 0 <= k < n && Reducing(ws[k], t) && 0 - ws[k].pitem.first == r;
    }
  }

  /** Reduce/reduce conflicts: with no shift, the rule that comes first in the grammar wins. */
  lemma {:induction false} EarliestRuleWins(levprd: seq<nat>, lt: nat, ws: seq<Wset>, n: nat, t: nat)
    requires n <= |ws| && forall k :: 0 <= k < n ==> ws[k].pitem.first != 0
    ensures var a := SettleAll(levprd, lt, ws, n, t, 0);
      && a <= 0
      && (a == 0 <==> forall r :: !ReducedBy(ws, n, t, r))
      && (a < 0 ==> ReducedBy(ws, n, t, 0 - a))
      && forall r :: ReducedBy(ws, n, t, r) ==> a < 0 && 0 - a <= r
  {
    if n > 0 {
      EarliestRuleWins(levprd, lt, ws, n - 1, t);
      var before := SettleAll(levprd, lt, ws, n - 1, t, 0);
      forall r
        ensures ReducedBy(ws, n, t, r) <==>
          ReducedBy(ws, n - 1, t, r) || (Reducing(ws[n - 1], t) && 0 - ws[n - 1].pitem.first == r)
      {
        ReducedUnfold(ws, n - 1, t, r);
      }
      assert Reducing(ws[n - 1], t) ==> ReducedBy(ws, n, t, 0 - ws[n - 1].pitem.first);
      assert before < 0 ==> ReducedBy(ws, n, t, 0 - before);
    }
  }

  /** A shift/reduce conflict with one rule is decided by precedence, then associativity. */
  lemma {:induction false} OneReductionResolved(levprd: seq<nat>, lt: nat, ws: seq<Wset>, n: nat, t: nat, a: int,
                                                k: nat)
    requires k < n <= |ws| && a > 0 && Reducing(ws[k], t) && ws[k].pitem.first < 0
    requires forall j :: 0 <= j < n && j != k ==> !Reducing(ws[j], t)
    ensures var r := 0 - ws[k].pitem.first; Judged(Level(levprd, r), lt, r, a, SettleAll(levprd, lt, ws, n, t, a))
  {
    hide Judged, Resolve;
    if k == n - 1 {
      NothingReduces(levprd, lt, ws, n - 1, t, a);
      ResolveJudges(Level(levprd, 0 - ws[k].pitem.first), lt, 0 - ws[k].pitem.first, a);
    } else {
      OneReductionResolved(levprd, lt, ws, n - 1, t, a, k);
    }
  }

  lemma {:induction false} NothingReduces(levprd: seq<nat>, lt: nat, ws: seq<Wset>, n: nat, t: nat, a: int)
    requires n <= |ws| && forall j :: 0 <= j < n ==> !Reducing(ws[j], t)
    ensures SettleAll(levprd, lt, ws, n, t, a) == a
  {
    if n > 0 {
      NothingReduces(levprd, lt, ws, n - 1, t, a);
    }
  }

  /** Whatever the conflicts, the outcome is the shift, a reduction that was possible, or an
      error put there by a nonassociative token. */
  lemma {:induction false} SettledFrom(levprd: seq<nat>, lt: nat, ws: seq<Wset>, n: nat, t: nat, a: int)
    requires n <= |ws| && a >= 0 && forall k :: 0 <= k < n ==> ws[k].pitem.first != 0
    ensures var b := SettleAll(levprd, lt, ws, n, t, a);
      b == a || (b < 0 && ReducedBy(ws, n, t, 0 - b)) || (b == ERRCODE && a > 0)
  {
    if n > 0 {
      SettledFrom(levprd, lt, ws, n - 1, t, a);
      var b := SettleAll(levprd, lt, ws, n - 1, t, a);
      if b < 0 {
        var k :| 0 <= k < n - 1 && Reducing(ws[k], t) && 0 - ws[k].pitem.first == 0 - b;
        assert ReducedBy(ws, n, t, 0 - b);
      }
      assert Reducing(ws[n - 1], t) ==> ReducedBy(ws, n, t, 0 - ws[n - 1].pitem.first);
    }
  }

  // ------------------------------------------------------------------ rows

  /** As stateTable has it: actions by token, then gotos by nonterminal; 0 means the default. */
  datatype Row = Row(actions: seq<int>, defaultAction: int)

  function RowAction(row: Row, c: nat): int
    requires c < |row.actions|
  {
    if row.actions[c] == 0 then row.defaultAction else row.actions[c]
  }

  predicate IsShift(a: int) {
    a > 0 && a != ACCEPTCODE && a != ERRCODE
  }

  /** Rule r can be reduced in state i. */
  ghost predicate Reducible(g: Grammar, m: Automaton, i: int, r: int) {
    0 < r && HasRule(g, r) && 0 <= i < |m.kernels| && InClosure(g, m.kernels[i], Lr0(r, |Rhs(g, r)|))
  }

  /** Action a may be taken in state i on token t. */
  ghost predicate ActionOk(g: Grammar, m: Automaton, i: int, t: int, a: int) {
    && (IsShift(a) ==> Trans(g, m, i, t, a))
    && (a < 0 ==> Reducible(g, m, i, 0 - a))
    && (a == ACCEPTCODE ==> i == 1 && t == ENDTOK)
  }

  /** A row that is right for state i. */
  ghost predicate RowOk(g: Grammar, m: Automaton, i: int, row: Row) {
    && |row.actions| == g.ntokens + g.nnonter + 1
    && (row.defaultAction == ERRCODE || (row.defaultAction < 0 && Reducible(g, m, i, 0 - row.defaultAction)))
    && (forall t :: 0 <= t <= g.ntokens ==> ActionOk(g, m, i, t, row.actions[t]))
    && forall c: nat :: 1 <= c <= g.nnonter ==> RowGoto(g, m, i, row, c)
  }

  ghost predicate RowGoto(g: Grammar, m: Automaton, i: int, row: Row, c: nat)
    requires |row.actions| == g.ntokens + g.nnonter + 1 && 1 <= c <= g.nnonter
  {
    if Expects(g, m, i, NTBASE + c) then Trans(g, m, i, NTBASE + c, row.actions[g.ntokens + c])
    else row.actions[g.ntokens + c] == 0
  }

  // ------------------------------------------------------------------ the default reduction

  function Count(row: seq<int>, v: int, n: nat): nat
    requires n <= |row|
  {
    if n == 0 then 0 else Count(row, v, n - 1) + if row[n - 1] == v then 1 else 0
  }

  lemma {:induction false} CountPositive(row: seq<int>, v: int, n: nat)
    requires n <= |row|
    ensures Count(row, v, n) > 0 <==> exists p :: 0 <= p < n && row[p] == v
  {
    if n > 0 {
      CountPositive(row, v, n - 1);
    }
  }

  /** r is the reduction used most often among the first n entries; 0 when there is none. */
  ghost predicate MostUsed(row: seq<int>, n: nat, r: int)
    requires n <= |row|
  {
    && r >= 0 && (r > 0 ==> Count(row, 0 - r, n) > 0)
    && (forall v :: v < 0 && Count(row, v, n) > 0 ==> r > 0 && Count(row, v, n) <= Count(row, 0 - r, n))
  }

  lemma CountsUpTo(row: seq<int>, j: nat, n: nat)
    requires j < n <= |row|
    ensures forall v :: Count(row, v, j + 1) > 0 ==> Count(row, v, j) > 0 || v == row[j]
  {
  }

  /** The row after wract has cleared the entries equal to the default reduction. */
  function Cleared(full: seq<int>, ntokens: nat, lastred: int): (row: seq<int>)
    ensures |row| == |full|
  {
    seq(|full|, p requires 0 <= p < |full| => if p <= ntokens && full[p] + lastred == 0 then 0 else full[p])
  }

  function DefaultAction(lastred: int): int {
    if lastred == 0 then ERRCODE else 0 - lastred
  }

  /** Clearing loses nothing but empty cells, which now lead to the default. */
  lemma ClearedKeeps(full: seq<int>, ntokens: nat, lastred: int, c: nat)
    requires c < |full| && lastred >= 0
    ensures RowAction(Row(Cleared(full, ntokens, lastred), DefaultAction(lastred)), c)
         == if full[c] == 0 then DefaultAction(lastred) else full[c]
  {
  }

  // ------------------------------------------------------------------ encoding

  /** What wract writes for an action that is not a shift. */
  function ExcaCode(a: int): int {
    if a < 0 then 0 - a else if a == ACCEPTCODE then -1 else 0
  }

  /** The exceptions to the default, in order of token. */
  function Exceptions(row: seq<int>, n: nat): seq<(int, int)>
    requires n <= |row|
  {
    if n == 0 then []
    else Exceptions(row, n - 1) + if row[n - 1] != 0 &&
      !IsShift(row[n - 1]) then [(n - 1, ExcaCode(row[n - 1]))] else []
  }

  /** The shifts, in order of token. */
  function Shifts(row: seq<int>, n: nat): seq<(int, int)>
    requires n <= |row|
  {
    if n == 0 then [] else Shifts(row, n - 1) + if IsShift(row[n - 1]) then [(n - 1, row[n - 1])] else []
  }

  /** In a list of pairs with increasing keys, key k has value v. */
  ghost predicate Increasing(pairs: seq<(int, int)>, n: int) {
    && (forall j, k :: 0 <= j < k < |pairs| ==> pairs[j].0 < pairs[k].0)
    && forall k :: 0 <= k < |pairs| ==> 0 <= pairs[k].0 < n
  }

  /** What wract writes to the exception table for state i: a header, the exceptions, the
      default; nothing when there are no exceptions. */
  function Block(i: nat, row: Row, ntokens: nat): seq<(int, int)>
    requires ntokens < |row.actions|
  {
    var exc := Exceptions(row.actions, ntokens + 1);
    if exc == [] then [] else [(-1, i)] + exc + [(-2, Lastred(row))]
  }

  function Lastred(row: Row): int {
    if row.defaultAction < 0 then 0 - row.defaultAction else 0
  }

  ghost predicate WideRows(rows: seq<Row>, ntokens: nat) {
    forall i :: 0 <= i < |rows| ==> ntokens < |rows[i].actions|
  }

  function ExcaTable(rows: seq<Row>, ntokens: nat): seq<(int, int)>
    requires WideRows(rows, ntokens)
  {
    if rows == [] then [] else ExcaTable(rows[..|rows| - 1], ntokens) + Block(|rows| - 1, rows[|rows| - 1], ntokens)
  }

  function DefOf(row: Row, ntokens: nat): int
    requires ntokens < |row.actions|
  {
    if Exceptions(row.actions, ntokens + 1) == [] then Lastred(row) else -2
  }

  /** The tables wract writes say what the rows say. */
  ghost predicate Written(rows: seq<Row>, ntokens: nat, defact: seq<int>, optst: seq<seq<(int, int)>>,
                          exca: seq<(int, int)>) {
    && WideRows(rows, ntokens) && |defact| == |optst| == |rows| && exca == ExcaTable(rows, ntokens)
    && forall i :: 0 <= i < |rows| ==>
      defact[i] == DefOf(rows[i], ntokens) && optst[i] == Shifts(rows[i].actions, ntokens + 1)
  }

  lemma WrittenNext(rows: seq<Row>, ntokens: nat, defact: seq<int>, optst: seq<seq<(int, int)>>, exca: seq<(int, int)>,
                    row: Row)
    requires Written(rows, ntokens, defact, optst, exca) && ntokens < |row.actions|
    ensures Written(rows + [row], ntokens, defact + [DefOf(row, ntokens)], optst + [Shifts(row.actions, ntokens + 1)],
                    exca + Block(|rows|, row, ntokens))
  {
    assert (rows + [row])[..|rows|] == rows;
  }

  lemma {:induction false} ExceptionsExact(row: seq<int>, n: nat, t: int, v: int)
    requires n <= |row|
    ensures Increasing(Exceptions(row, n), n)
    ensures (t, v) in Exceptions(row, n) <==> 0 <= t < n && row[t] != 0 && !IsShift(row[t]) && v == ExcaCode(row[t])
  {
    if n > 0 {
      ExceptionsExact(row, n - 1, t, v);
    }
  }

  lemma {:induction false} ShiftsExact(row: seq<int>, n: nat, t: int, v: int)
    requires n <= |row|
    ensures Increasing(Shifts(row, n), n)
    ensures (t, v) in Shifts(row, n) <==> 0 <= t < n && IsShift(row[t]) && v == row[t]
  {
    if n > 0 {
      ShiftsExact(row, n - 1, t, v);
    }
  }
}

/** output: the row of a state is filled from its closure, settled and written. */
module RowWriting {
  import opened Grammars
  import opened Items
  import opened Lookaheads
  import opened WorkingSets
  import opened Kernels
  import opened KernelStore
  import opened StateLists
  import opened Collecting
  import opened Generating
  import opened Actions

  // ------------------------------------------------------------------ shifts

  ghost function PitemsOf(kern: seq<Item>): (ps: seq<Pitem>)
    ensures |ps| == |kern|
  {
    seq(|kern|, k requires 0 <= k < |kern| => kern[k].pitem)
  }

  lemma PitemsAppend(a: seq<Item>, b: seq<Item>)
    ensures PitemsOf(a + b) == PitemsOf(a) + PitemsOf(b)
  {
  }

  lemma PitemsPush(a: seq<Item>, b: seq<Item>, p: Pitem)
    requires |b| == |a| + 1 && b[..|a|] == a && b[|a|].pitem == p
    ensures PitemsOf(b) == PitemsOf(a) + [p]
  {
    assert forall k :: 0 <= k < |a| ==> b[k] == b[..|a|][k];
  }

  /** States are told apart by what their items are, not by their lookaheads. */
  lemma SamePitems(g: Grammar, a: seq<Item>, b: seq<Item>)
    requires PitemsOf(a) == PitemsOf(b) && CoreShape(g, a)
    ensures CoreShape(g, b) && KernelSet(b) == KernelSet(a)
  {
    assert forall k :: 0 <= k < |a| ==> a[k].pitem == PitemsOf(a)[k] == PitemsOf(b)[k] == b[k].pitem;
  }

  /** The working sets hold the closure of state i. */
  ghost predicate ClosureOf(f: Facts, m: Automaton, i: int, nolook: bool, kernel: seq<Item>, ws: seq<Wset>) {
    && 0 <= i < |m.kernels| && KernelMatches(f.g, kernel, m.kernels[i]) && ClosureDone(f, nolook, kernel, ws)
  }

  // ------------------------------------------------------------------ lookaheads

  /** t is a lookahead of it in the LR(1) closure of the kernel: in every closed set of LR(1)
      items above the kernel. */
  ghost predicate HasLook(f: Facts, kernel: seq<Item>, it: Lr0, t: nat) {
    forall m: LookMap :: ClosedMap(f, m) && Includes(kernel, m) ==> it in m && t in m[it]
  }

  /** The LR(1) closure of the kernel calls for a reduction by r on t. */
  ghost predicate Reduces(f: Facts, kernel: seq<Item>, r: int, t: nat) {
    0 < r && HasRule(f.g, r) && HasLook(f, kernel, Lr0(r, |Rhs(f.g, r)|), t)
  }

  /** Kernel lookaheads as they are, every lookahead for the other items. */
  ghost function QuietMap(f: Facts, kernel: seq<Item>, ws: seq<Wset>): LookMap {
    map it | it in FullMap(f, KernelSet(kernel)) :: if it in KernelSet(kernel) then LookOf(ws, it)
    else UpTo(f.g.ntokens)
  }

  lemma QuietMapClosed(f: Facts, kernel: seq<Item>, ws: seq<Wset>)
    requires ClosureDone(f, true, kernel, ws)
    ensures ClosedMap(f, QuietMap(f, kernel, ws)) && Includes(kernel, QuietMap(f, kernel, ws))
  {
    var full, quiet := FullMap(f, KernelSet(kernel)), QuietMap(f, kernel, ws);
    FullMapClosed(f, kernel);
    forall it, r: nat | it in quiet && Introduces(f.g, it, r)
      ensures Lr0(r, 0) in quiet && PassesOn(f, it, quiet[it]) <= quiet[Lr0(r, 0)]
    {
      assert Lr0(r, 0) in full && PassesOn(f, it, full[it]) <= full[Lr0(r, 0)];
      LookOfBounded(f, kernel, ws, it);
      NotIntroduced(f, kernel, it, r);
      if it.dot < |Rhs(f.g, it.rule)| {
        RestLookMonotone(f, RestOf(f.g, it), quiet[it], full[it]);
      }
    }
    forall k | 0 <= k < |kernel|
      ensures ItemOf(kernel[k].pitem) in quiet && kernel[k].look <= quiet[ItemOf(kernel[k].pitem)]
    {
      assert ItemOf(kernel[k].pitem) in KernelSet(kernel);
      assert ItemOf(kernel[k].pitem) in full;
      assert ws[k].pitem == kernel[k].pitem;
    }
  }

  lemma LookOfBounded(f: Facts, kernel: seq<Item>, ws: seq<Wset>, it: Lr0)
    requires Inv(f, kernel, ws)
    ensures LookOf(ws, it) <= UpTo(f.g.ntokens)
  {
  }

  /** An item introduced by another one is not in a kernel. */
  lemma NotIntroduced(f: Facts, kernel: seq<Item>, it: Lr0, r: nat)
    requires Sized(f) && KernelShape(f.g, kernel) && Introduces(f.g, it, r)
    ensures Lr0(r, 0) !in KernelSet(kernel)
  {
    RuleShape(f.g, it.rule);
    RuleShape(f.g, r);
    assert it.dot < |Rhs(f.g, it.rule)| ==> Next(f.g, it) in Rhs(f.g, it.rule);
  }

  /** Lookaheads are computed only in the states marked for them; no reduction is lost by
      that, and none is gained. */
  lemma LookaheadsSuffice(f: Facts, m: Automaton, i: int, nolook: bool, kernel: seq<Item>, ws: seq<Wset>, r: int,
                          t: nat)
    requires ClosureOf(f, m, i, nolook, kernel, ws) && (nolook ==> NoEmpties(f.g, m.kernels[i])) && r > 0
    ensures ReducedBy(ws, |ws|, t, r) <==> Reduces(f, kernel, r, t)
  {
    hide ClosedMap, Includes, Justified, ClosureDone;
    if ReducedBy(ws, |ws|, t, r) {
      var k :| 0 <= k < |ws| && Reducing(ws[k], t) && 0 - ws[k].pitem.first == r;
      EntrySymbol(f, m, i, nolook, kernel, ws, k);
      EntryHasLook(f, nolook, kernel, ws, k, t);
    }
    if Reduces(f, kernel, r, t) {
      var k := ReducingEntry(f, m, i, nolook, kernel, ws, r, t);
    }
  }

  lemma EntryHasLook(f: Facts, nolook: bool, kernel: seq<Item>, ws: seq<Wset>, k: nat, t: nat)
    requires ClosureDone(f, nolook, kernel, ws) && k < |ws| && t in ws[k].ws
    ensures HasLook(f, kernel, ItemOf(ws[k].pitem), t)
  {
    forall m: LookMap | ClosedMap(f, m) && Includes(kernel, m)
      ensures ItemOf(ws[k].pitem) in m && t in m[ItemOf(ws[k].pitem)]
    {
      assert Below(ws, m);
    }
  }

  lemma ReducingEntry(f: Facts, m: Automaton, i: int, nolook: bool, kernel: seq<Item>, ws: seq<Wset>, r: int, t: nat)
    returns (k: nat)
    requires ClosureOf(f, m, i, nolook, kernel, ws) && (nolook ==> NoEmpties(f.g, m.kernels[i]))
    requires Reduces(f, kernel, r, t)
    ensures k < |ws| && Reducing(ws[k], t) && 0 - ws[k].pitem.first == r
  {
    var it := Lr0(r, |Rhs(f.g, r)|);
    assert t in LookOf(ws, it) by {
      if nolook {
        QuietMapClosed(f, kernel, ws);
        assert it in QuietMap(f, kernel, ws);
        assert InClosure(f.g, m.kernels[i], it) && Next(f.g, it) <= ENDTOK;
        assert it in m.kernels[i];
      } else {
        ClosureIsLeast(f, kernel, ws);
        assert it in MapOf(ws);
      }
    }
    var q :| 0 <= q < |ws| && ItemOf(ws[q].pitem) == it && t in ws[q].ws;
    assert PitemOk(f.g, ws[q].pitem);
    PitemShape(f.g, ws[q].pitem);
    k := q;
  }

  // ------------------------------------------------------------------ the row before wract

  /** Where the entry for symbol x is: tokens first, then nonterminals. */
  function Column(g: Grammar, x: int): int {
    if x < NTBASE then x else g.ntokens + (x - NTBASE)
  }

  ghost predicate RowSize(g: Grammar, row: seq<int>) {
    1 < g.ntokens < NTBASE && |row| == g.ntokens + g.nnonter + 1
  }

  /** Entries that are not zero are the gotos of state i. */
  ghost predicate GotosRight(g: Grammar, m: Automaton, i: int, row: seq<int>) {
    && RowSize(g, row) && row[0] == 0 && row[ENDTOK] == 0
    && forall x :: IsUserSymbol(g, x) && row[Column(g, x)] != 0 ==> Trans(g, m, i, x, row[Column(g, x)])
  }

  ghost predicate EntriesIn(g: Grammar, ws: seq<Wset>, row: seq<int>, u: nat)
    requires RowSize(g, row)
  {
    forall q :: 0 <= q < u && q < |ws| && IsUserSymbol(g, ws[q].pitem.first) ==> row[Column(g, ws[q].pitem.first)] != 0
  }

  /** The gotos of state i, and nothing else. */
  ghost predicate GotoRow(g: Grammar, m: Automaton, i: int, row: seq<int>) {
    GotosRight(g, m, i, row) && forall x :: IsUserSymbol(g, x) && Expects(g, m, i, x) ==> row[Column(g, x)] != 0
  }

  lemma EntriesNext(g: Grammar, m: Automaton, i: int, ws: seq<Wset>, row: seq<int>, row': seq<int>, u: nat)
    requires GotosRight(g, m, i, row) && EntriesIn(g, ws, row, u) && u < |ws|
    requires var x := ws[u].pitem.first;
      if IsUserSymbol(g, x) && row[Column(g, x)] == 0 then exists j ::
        Trans(g, m, i, x, j) && row' == row[Column(g, x) := j]
      else row' == row
    ensures GotosRight(g, m, i, row') && EntriesIn(g, ws, row', u + 1)
  {
    hide Trans;
    var x := ws[u].pitem.first;
    if IsUserSymbol(g, x) && row[Column(g, x)] == 0 {
      var j :| Trans(g, m, i, x, j) && row' == row[Column(g, x) := j];
      TransNonzero(g, m, i, x, j);
    }
  }

  lemma TransNonzero(g: Grammar, m: Automaton, i: int, x: int, j: int)
    requires Trans(g, m, i, x, j)
    ensures 0 < j < |m.kernels|
  {
  }

  lemma EntriesGoto(f: Facts, m: Automaton, i: int, nolook: bool, kernel: seq<Item>, ws: seq<Wset>, row: seq<int>)
    requires ClosureOf(f, m, i, nolook, kernel, ws) && GotosRight(f.g, m, i, row) && EntriesIn(f.g, ws, row, |ws|)
    ensures GotoRow(f.g, m, i, row)
  {
    hide ClosureOf, Trans, Expects;
    forall x | IsUserSymbol(f.g, x) && Expects(f.g, m, i, x)
      ensures row[Column(f.g, x)] != 0
    {
      var q := ClosureEntry(f, m, i, nolook, kernel, ws, x);
    }
  }

  lemma ClosureEntry(f: Facts, m: Automaton, i: int, nolook: bool, kernel: seq<Item>, ws: seq<Wset>, x: int)
    returns (q: nat)
    requires ClosureOf(f, m, i, nolook, kernel, ws) && Expects(f.g, m, i, x)
    ensures q < |ws| && ws[q].pitem.first == x
  {
    var it :| InClosure(f.g, m.kernels[i], it) && ValidItem(f.g, it) && Next(f.g, it) == x;
    ClosureItems(f, nolook, kernel, ws, it);
    var k :| 0 <= k < |ws| && ItemOf(ws[k].pitem) == it;
    assert PitemOk(f.g, ws[k].pitem);
    PitemShape(f.g, ws[k].pitem);
    q := k;
  }

  ghost predicate Complete(g: Grammar, it: Lr0) {
    HasRule(g, it.rule) && it.dot == |Rhs(g, it.rule)|
  }

  /** What an entry of the closure can have after its dot. */
  lemma EntrySymbol(f: Facts, m: Automaton, i: int, nolook: bool, kernel: seq<Item>, ws: seq<Wset>, u: nat)
    requires ClosureOf(f, m, i, nolook, kernel, ws) && u < |ws|
    ensures ws[u].pitem.first > ENDTOK ==> IsUserSymbol(f.g, ws[u].pitem.first) && Expects(f.g, m, i, ws[u].pitem.first)
    ensures ws[u].pitem.first <= 0 ==>
      Complete(f.g, ItemOf(ws[u].pitem)) && 0 - ws[u].pitem.first == ItemOf(ws[u].pitem).rule
    ensures InClosure(f.g, m.kernels[i], ItemOf(ws[u].pitem)) && ValidItem(f.g, ItemOf(ws[u].pitem))
    ensures Next(f.g, ItemOf(ws[u].pitem)) == ws[u].pitem.first
  {
    assert PitemOk(f.g, ws[u].pitem);
    PitemShape(f.g, ws[u].pitem);
    ClosureItems(f, nolook, kernel, ws, ItemOf(ws[u].pitem));
    assert HasItem(ws, ItemOf(ws[u].pitem));
  }

  /** No state has read the whole input, end marker included. */
  lemma NeverPastEnd(g: Grammar, m: Automaton, i: int)
    requires WellFormed(g) && IsCollection(g, m) && 0 <= i < |m.kernels|
    ensures Lr0(0, 2) !in m.kernels[i]
  {
    RuleShape(g, 0);
    assert Next(g, Lr0(0, 1)) == ENDTOK;
    if i > 0 {
      assert HasPredecessor(g, m, i);
      var h :| 0 <= h < i && Trans(g, m, h, m.access[i], i);
      assert !InGoto(g, m.kernels[h], m.access[i], Lr0(0, 2));
    }
  }

  lemma NeverZero(f: Facts, m: Automaton, i: int, nolook: bool, kernel: seq<Item>, ws: seq<Wset>)
    requires ClosureOf(f, m, i, nolook, kernel, ws) && IsCollection(f.g, m)
    ensures forall k :: 0 <= k < |ws| ==> ws[k].pitem.first != 0
  {
    hide ClosureOf, IsCollection;
    forall k | 0 <= k < |ws|
      ensures ws[k].pitem.first != 0
    {
      EntrySymbol(f, m, i, nolook, kernel, ws, k);
      ClosureWellFormed(f, m, i, nolook, kernel, ws);
      RuleShape(f.g, 0);
      NeverPastEnd(f.g, m, i);
    }
  }

  lemma ClosureWellFormed(f: Facts, m: Automaton, i: int, nolook: bool, kernel: seq<Item>, ws: seq<Wset>)
    requires ClosureOf(f, m, i, nolook, kernel, ws)
    ensures WellFormed(f.g) && 0 <= i < |m.kernels|
  {
  }

  /** The entry for token t before the reductions are looked at. */
  ghost function StartAction(i: int, row: seq<int>, t: nat): int
    requires t < |row|
  {
    if i == 1 && t == ENDTOK then ACCEPTCODE else row[t]
  }

  /** The row that output hands to wract. */
  ghost predicate FullRow(f: Facts, levprd: seq<nat>, toklev: seq<nat>, m: Automaton, i: int, ws: seq<Wset>,
                          gotos: seq<int>, full: seq<int>) {
    && GotoRow(f.g, m, i, gotos) && |full| == |gotos|
    && (forall t :: 0 <= t <= f.g.ntokens ==>
          full[t] == SettleAll(levprd, Level(toklev, t), ws, |ws|, t, StartAction(i, gotos, t)))
    && forall c :: f.g.ntokens < c < |full| ==> full[c] == gotos[c]
  }

  /** Every action of the row can be taken. */
  lemma FullRowOk(f: Facts, levprd: seq<nat>, toklev: seq<nat>, m: Automaton, i: int, nolook: bool, kernel: seq<Item>,
                  ws: seq<Wset>, gotos: seq<int>, full: seq<int>, t: int)
    requires FullRow(f, levprd, toklev, m, i, ws, gotos, full) && ClosureOf(f, m, i, nolook, kernel, ws)
    requires IsCollection(f.g, m)
    requires 0 <= t <= f.g.ntokens && |m.kernels| < NSTATES
    ensures ActionOk(f.g, m, i, t, full[t])
  {
    hide ClosureOf, IsCollection, SettleAll, ReducedBy, Reducible, GotoRow, Trans, StartAction, FullRow;
    NeverZero(f, m, i, nolook, kernel, ws);
    FullCell(f, levprd, toklev, m, i, ws, gotos, full, t);
    var a := StartAction(i, gotos, t);
    StartOk(f.g, m, i, gotos, t);
    SettledFrom(levprd, Level(toklev, t), ws, |ws|, t, a);
    if full[t] < 0 {
      ReducedIsReducible(f, m, i, nolook, kernel, ws, t, 0 - full[t]);
    }
  }

  lemma FullCell(f: Facts, levprd: seq<nat>, toklev: seq<nat>, m: Automaton, i: int, ws: seq<Wset>, gotos: seq<int>,
                 full: seq<int>, t: int)
    requires FullRow(f, levprd, toklev, m, i, ws, gotos, full) && 0 <= t <= f.g.ntokens
    ensures GotoRow(f.g, m, i, gotos) && t < |full| == |gotos|
    ensures full[t] == SettleAll(levprd, Level(toklev, t), ws, |ws|, t, StartAction(i, gotos, t))
  {
    hide SettleAll, StartAction;
  }

  lemma StartOk(g: Grammar, m: Automaton, i: int, gotos: seq<int>, t: nat)
    requires GotoRow(g, m, i, gotos) && 0 <= t <= g.ntokens && |m.kernels| < NSTATES
    ensures ActionOk(g, m, i, t, StartAction(i, gotos, t)) && StartAction(i, gotos, t) >= 0
  {
    if t > ENDTOK {
      assert IsUserSymbol(g, t);
    }
  }

  lemma ReducedIsReducible(f: Facts, m: Automaton, i: int, nolook: bool, kernel: seq<Item>, ws: seq<Wset>, t: nat,
                           r: int)
    requires ClosureOf(f, m, i, nolook, kernel, ws) && ReducedBy(ws, |ws|, t, r) && r > 0
    ensures Reducible(f.g, m, i, r)
  {
    ClosureWellFormed(f, m, i, nolook, kernel, ws);
    var k :| 0 <= k < |ws| && Reducing(ws[k], t) && 0 - ws[k].pitem.first == r;
    hide ClosureOf;
    EntrySymbol(f, m, i, nolook, kernel, ws, k);
  }

  /** How wract chooses the default reduction: a shift on the error token rules it out. */
  ghost predicate DefaultFor(full: seq<int>, n: nat, lastred: int)
    requires ERRTOK < n <= |full|
  {
    exists best :: MostUsed(full, n, best) && lastred == if full[ERRTOK] > 0 then 0 else best
  }

  /** How the row of state i comes about. */
  ghost predicate RowMade(f: Facts, levprd: seq<nat>, toklev: seq<nat>, m: Automaton, i: int, nolook: bool,
                          kernel: seq<Item>, ws: seq<Wset>, gotos: seq<int>, full: seq<int>, lastred: int, row: Row) {
    && ClosureOf(f, m, i, nolook, kernel, ws) && FullRow(f, levprd, toklev, m, i, ws, gotos, full)
    && ERRTOK <= f.g.ntokens < |full| && DefaultFor(full, f.g.ntokens + 1, lastred)
    && row == Row(Cleared(full, f.g.ntokens, lastred), DefaultAction(lastred))
  }

  ghost predicate RowFrom(f: Facts, levprd: seq<nat>, toklev: seq<nat>, m: Automaton, i: int, nolook: bool,
                          kernel: seq<Item>, row: Row) {
    exists ws, gotos, full, lastred :: RowMade(f, levprd, toklev, m, i, nolook, kernel, ws, gotos, full, lastred, row)
  }

  /** A row that output writes is right for its state. */
  lemma MadeRowOk(f: Facts, levprd: seq<nat>, toklev: seq<nat>, m: Automaton, i: int, nolook: bool, kernel: seq<Item>,
                  row: Row)
    requires RowFrom(f, levprd, toklev, m, i, nolook, kernel, row) && IsCollection(f.g, m) && |m.kernels| < NSTATES
    ensures RowOk(f.g, m, i, row)
  {
    hide ClosureOf, IsCollection, FullRow, ActionOk;
    var ws, gotos, full, lastred :| RowMade(f, levprd, toklev, m, i, nolook, kernel, ws, gotos, full, lastred, row);
    FullSize(f, levprd, toklev, m, i, ws, gotos, full);
    forall t | 0 <= t <= f.g.ntokens
      ensures ActionOk(f.g, m, i, t, full[t]) && ActionOk(f.g, m, i, t, row.actions[t])
    {
      FullRowOk(f, levprd, toklev, m, i, nolook, kernel, ws, gotos, full, t);
      NoActionOk(f.g, m, i, t);
    }
    if lastred > 0 {
      CountPositive(full, 0 - lastred, f.g.ntokens + 1);
      var p :| 0 <= p < f.g.ntokens + 1 && full[p] == 0 - lastred;
      ReductionOk(f.g, m, i, p, full[p]);
    }
    forall c: nat | 1 <= c <= f.g.nnonter
      ensures RowGoto(f.g, m, i, row, c)
    {
      FullGoto(f, levprd, toklev, m, i, ws, gotos, full, c);
    }
  }

  lemma FullSize(f: Facts, levprd: seq<nat>, toklev: seq<nat>, m: Automaton, i: int, ws: seq<Wset>, gotos: seq<int>,
                 full: seq<int>)
    requires FullRow(f, levprd, toklev, m, i, ws, gotos, full)
    ensures |full| == f.g.ntokens + f.g.nnonter + 1
  {
  }

  lemma NoActionOk(g: Grammar, m: Automaton, i: int, t: int)
    ensures ActionOk(g, m, i, t, 0)
  {
  }

  lemma ReductionOk(g: Grammar, m: Automaton, i: int, t: int, a: int)
    requires ActionOk(g, m, i, t, a) && a < 0
    ensures Reducible(g, m, i, 0 - a)
  {
  }

  lemma FullGoto(f: Facts, levprd: seq<nat>, toklev: seq<nat>, m: Automaton, i: int, ws: seq<Wset>, gotos: seq<int>,
                 full: seq<int>, c: nat)
    requires FullRow(f, levprd, toklev, m, i, ws, gotos, full) && 1 <= c <= f.g.nnonter
    ensures f.g.ntokens + c < |full|
    ensures if Expects(f.g, m, i, NTBASE + c) then Trans(f.g, m, i, NTBASE + c, full[f.g.ntokens + c])
            else full[f.g.ntokens + c] == 0
  {
    hide Trans, Expects, SettleAll;
    assert IsUserSymbol(f.g, NTBASE + c);
    assert Column(f.g, NTBASE + c) == f.g.ntokens + c;
    if full[f.g.ntokens + c] != 0 {
      TransExpects(f.g, m, i, NTBASE + c, full[f.g.ntokens + c]);
    }
  }

  class RowWriter {
    const gen: Generator
    const levprd: seq<nat>
    const toklev: seq<nat>
    var temp1: seq<int>
    var lastred: int
    var defact: seq<int>
    var optst: seq<seq<(int, int)>>
    var exca: seq<(int, int)>
    var stateTable: seq<Row>

    constructor (gen: Generator, levprd: seq<nat>, toklev: seq<nat>)
      ensures this.gen == gen && this.levprd == levprd && this.toklev == toklev
      ensures defact == [] && optst == [] && exca == [] && stateTable == []
    {
      this.gen := gen;
      this.levprd := levprd;
      this.toklev := toklev;
      temp1 := [];
      lastred := 0;
      defact, optst, exca, stateTable := [], [], [], [];
    }

    /** putitem of entry v, if c is after its dot. */
    method VisitQuiet(v: nat, c: int, ghost kern: seq<Item>)
      requires LayoutOk(gen.st.statemem, gen.st.pstate, gen.st.nstate)
      requires v < |gen.work.wsets| && (gen.work.wsets[v].pitem.first == c ==>
        0 <= gen.work.wsets[v].pitem.off && gen.work.wsets[v].pitem.off + 1 < |gen.work.wsets[v].pitem.prod|)
      requires PitemsOf(gen.st.Kern(gen.st.nstate)) == PitemsOf(kern)
      modifies gen.st`statemem, gen.st`pstate
      ensures LayoutOk(gen.st.statemem, gen.st.pstate, gen.st.nstate)
      ensures SameKerns(old(gen.st.statemem), old(gen.st.pstate), gen.st.statemem, gen.st.pstate, gen.st.nstate)
      ensures PitemsOf(gen.st.Kern(gen.st.nstate)) == PitemsOf(kern + PickedAt(gen.work.wsets[v], c))
    {
      hide LayoutOk, KernAt;
      var w := gen.work.wsets[v];
      ghost var before := gen.st.Kern(gen.st.nstate);
      PitemsAppend(kern, PickedAt(w, c));
      if c == w.pitem.first {
        gen.st.PutItem(w.pitem, {}, true);
        PitemsPush(before, gen.st.Kern(gen.st.nstate), Advance(w.pitem));
      }
    }

    /** The calls of putitem for one shift. */
    method CollectQuiet(u: nat, c: int)
      requires LayoutOk(gen.st.statemem, gen.st.pstate, gen.st.nstate) && gen.st.Kern(gen.st.nstate) == []
      requires u <= |gen.work.wsets| && Movable(gen.work.wsets, c)
      requires forall k :: 0 <= k < u ==> gen.work.wsets[k].pitem.first != c
      modifies gen.st`statemem, gen.st`pstate
      ensures LayoutOk(gen.st.statemem, gen.st.pstate, gen.st.nstate)
      ensures SameKerns(old(gen.st.statemem), old(gen.st.pstate), gen.st.statemem, gen.st.pstate, gen.st.nstate)
      ensures PitemsOf(gen.st.Kern(gen.st.nstate)) == PitemsOf(Picked(gen.work.wsets, c, |gen.work.wsets|))
    {
      hide LayoutOk, KernAt, Picked, PickedAt, PitemsOf;
      ghost var ws := gen.work.wsets;
      PickedNone(ws, c, u);
      for v := u to |gen.work.wsets|
        invariant LayoutOk(gen.st.statemem, gen.st.pstate, gen.st.nstate)
        invariant SameKerns(old(gen.st.statemem), old(gen.st.pstate), gen.st.statemem, gen.st.pstate, gen.st.nstate)
        invariant PitemsOf(gen.st.Kern(gen.st.nstate)) == PitemsOf(Picked(ws, c, v))
      {
        PickedUnfold(ws, c, v);
        VisitQuiet(v, c, Picked(ws, c, v));
      }
    }

    /** The state that state i goes to on c, found again. */
    method ShiftTo(i: int, u: nat, c: int, ghost nolook: bool, ghost kernel: seq<Item>) returns (j: int)
      requires gen.Finished() && ClosureOf(gen.f, gen.st.auto, i, nolook, kernel, gen.work.wsets) && c > ENDTOK
      requires u < |gen.work.wsets| && gen.work.wsets[u].pitem.first == c
      requires forall k :: 0 <= k < u ==> gen.work.wsets[k].pitem.first != c
      modifies gen.st
      ensures gen.Finished() && gen.st.auto == old(gen.st.auto) && gen.st.tystate == old(gen.st.tystate)
      ensures gen.st.nstate == old(gen.st.nstate)
      ensures SameKerns(old(gen.st.statemem), old(gen.st.pstate), gen.st.statemem, gen.st.pstate, gen.st.nstate)
      ensures Trans(gen.f.g, gen.st.auto, i, c, j)
    {
      hide LayoutOk, KernelsMatch, ChainsOk, Apart, GotosKept, AllLooksJust, Sized, FactsOk, KernAt, KernelSet, Movable,
        CoreShape, EnteredBy, LooksBounded, ClosureOf, IsCollection, Trans, FilledUpTo, IsGoto, Picked, PitemsOf;
      var st := gen.st;
      ghost var ws, m, sm, ps := gen.work.wsets, st.auto, st.statemem, st.pstate;
      ClosedGoto(gen.f, m, i, nolook, kernel, ws, c, u);
      CollectQuiet(u, c);
      MatchesFrame(gen.f.g, sm, ps, m.kernels, st.statemem, st.pstate);
      LooksFrame(gen.f.g, m, sm, ps, st.statemem, st.pstate);
      SamePitems(gen.f.g, Picked(ws, c, |ws|), st.Kern(st.nstate));
      ghost var h := TargetKnown(gen.f.g, m, i, c, KernelSet(Picked(ws, c, |ws|)));
      var ok;
      ghost var sm1, ps1 := st.statemem, st.pstate;
      ok, j := st.State(c, true);
      LooksFrame(gen.f.g, m, sm1, ps1, st.statemem, st.pstate);
      TargetFound(gen.f.g, m, i, c, KernelSet(Picked(ws, c, |ws|)), j);
    }

    /** The loop that enters the gotos of state i. */
    method FillGotos(i: int, ghost nolook: bool, ghost kernel: seq<Item>)
      requires gen.Finished() && ClosureOf(gen.f, gen.st.auto, i, nolook, kernel, gen.work.wsets)
      modifies gen.st, `temp1
      ensures gen.Finished() && gen.st.auto == old(gen.st.auto) && gen.st.tystate == old(gen.st.tystate)
      ensures gen.st.nstate == old(gen.st.nstate)
      ensures SameKerns(old(gen.st.statemem), old(gen.st.pstate), gen.st.statemem, gen.st.pstate, gen.st.nstate)
      ensures GotoRow(gen.f.g, gen.st.auto, i, temp1)
    {
      hide ClosureOf, GotosRight, EntriesIn, GotoRow, Trans, Expects, KernAt, Generator.Finished, FactsOk, Sized,
        WellFormed, IsCollection, StateList.Valid;
      ghost var m, ws := gen.st.auto, gen.work.wsets;
      var g := gen.f.g;
      temp1 := seq(g.ntokens + g.nnonter + 1, _ => 0);
      NoGotosYet(gen.f, m, i, nolook, kernel, ws, temp1);
      gen.FinishedFacts();
      for u := 0 to |gen.work.wsets|
        invariant gen.Finished() && gen.st.auto == m && gen.st.tystate == old(gen.st.tystate)
        invariant gen.st.nstate == |m.kernels|
        invariant SameKerns(old(gen.st.statemem), old(gen.st.pstate), gen.st.statemem, gen.st.pstate, gen.st.nstate)
        invariant RowSize(g, temp1) && GotosRight(g, m, i, temp1) && EntriesIn(g, ws, temp1, u)
      {
        ghost var row := temp1;
        EntrySymbol(gen.f, m, i, nolook, kernel, ws, u);
        var c := gen.work.wsets[u].pitem.first;
        if c > 1 && c < NTBASE && temp1[c] == 0 {
          NotYet(g, ws, row, u);
          var j := ShiftTo(i, u, c, nolook, kernel);
          temp1 := temp1[c := j];
        } else if c > NTBASE {
          c := c - NTBASE;
          if temp1[c + g.ntokens] == 0 {
            gen.StoredGoto(i, c);
            temp1 := temp1[c + g.ntokens := gen.amem[gen.indgo[i] + c]];
          }
        }
        EntriesNext(g, m, i, ws, row, temp1, u);
      }
      EntriesGoto(gen.f, m, i, nolook, kernel, ws, temp1);
    }

    /** precftn: a shift/reduce conflict between rule r and the action on token t. */
    method Precftn(r: nat, t: nat)
      requires t < |temp1|
      modifies `temp1
      ensures temp1 == old(temp1)[t := Resolve(Level(levprd, r), Level(toklev, t), r, old(temp1)[t])]
      ensures Judged(Level(levprd, r), Level(toklev, t), r, old(temp1)[t], temp1[t])
      ensures r < |levprd| && t < |toklev| ==> Judged(levprd[r], toklev[t], r, old(temp1)[t], temp1[t])
    {
      ResolveJudges(Level(levprd, r), Level(toklev, t), r, temp1[t]);
      var action := 0;
      var lp, lt := Level(levprd, r), Level(toklev, t);
      if Plevel(lt) == 0 || Plevel(lp) == 0 {
        return;
      }
      if Plevel(lt) == Plevel(lp) {
        action := Assoc(lt);
      } else if Plevel(lt) > Plevel(lp) {
        action := RASC;
      } else {
        action := LASC;
      }
      if action == BASC {
        temp1 := temp1[t := ERRCODE];
      } else if action == LASC {
        temp1 := temp1[t := 0 - r];
      }
    }

    /** The loop over the tokens for one entry that calls for a reduction. */
    method SettleEntry(ghost w: Wset, us: set<nat>)
      requires w.pitem.first <= 0 && w.ws == us && lastred == 0 - w.pitem.first && gen.f.g.ntokens < |temp1|
      modifies `temp1
      ensures |temp1| == |old(temp1)| && forall c :: gen.f.g.ntokens < c < |temp1| ==> temp1[c] == old(temp1)[c]
      ensures forall t :: 0 <= t <= gen.f.g.ntokens ==>
        temp1[t] == SettleOne(levprd, Level(toklev, t), w, t, old(temp1)[t])
    {
      var c := 0 - lastred;
      for k := 0 to gen.f.g.ntokens + 1
        invariant |temp1| == |old(temp1)|
        invariant forall t :: 0 <= t < k ==> temp1[t] == SettleOne(levprd, Level(toklev, t), w, t, old(temp1)[t])
        invariant forall t :: k <= t < |temp1| ==> temp1[t] == old(temp1)[t]
      {
        if k !in us {
          continue;
        }
        if temp1[k] == 0 {
          temp1 := temp1[k := c];
        } else if temp1[k] < 0 {
          if 0 - temp1[k] > lastred {
            temp1 := temp1[k := 0 - lastred];
          }
        } else {
          Precftn(lastred, k);
        }
      }
    }

    /** The loop over the entries that call for a reduction. */
    method FillReductions(ghost base: seq<int>)
      requires temp1 == base && gen.f.g.ntokens < |temp1|
      modifies `temp1, `lastred
      ensures |temp1| == |base| && forall c :: gen.f.g.ntokens < c < |temp1| ==> temp1[c] == base[c]
      ensures forall t :: 0 <= t <= gen.f.g.ntokens ==>
        temp1[t] == SettleAll(levprd, Level(toklev, t), gen.work.wsets, |gen.work.wsets|, t, base[t])
    {
      ghost var ws := gen.work.wsets;
      lastred := 0;
      for u := 0 to |gen.work.wsets|
        invariant |temp1| == |base| && forall c :: gen.f.g.ntokens < c < |temp1| ==> temp1[c] == base[c]
        invariant forall t :: 0 <= t <= gen.f.g.ntokens ==>
          temp1[t] == SettleAll(levprd, Level(toklev, t), ws, u, t, base[t])
      {
        var c := gen.work.wsets[u].pitem.first;
        if c > 0 {
          continue;
        }
        lastred := 0 - c;
        SettleEntry(ws[u], gen.work.wsets[u].ws);
      }
    }

    /** The search for the best default reduction. */
    method BestDefault()
      requires gen.f.g.ntokens < |temp1|
      modifies `lastred
      ensures MostUsed(temp1, gen.f.g.ntokens + 1, lastred) && lastred >= 0
    {
      lastred := 0;
      var ntimes := 0;
      var n := gen.f.g.ntokens + 1;
      for j := 0 to n
        invariant lastred >= 0 && ntimes == (if lastred > 0 then Count(temp1, 0 - lastred, n) else 0)
        invariant lastred > 0 ==> ntimes > 0
        invariant forall v :: v < 0 && Count(temp1, v, j) > 0 ==> Count(temp1, v, n) <= ntimes
      {
        CountsUpTo(temp1, j, n);
        if temp1[j] >= 0 {
          continue;
        }
        if temp1[j] + lastred == 0 {
          continue;
        }
        var count, tred := 0, 0 - temp1[j];
        for p := 0 to n
          invariant count == Count(temp1, 0 - tred, p)
        {
          if temp1[p] + tred == 0 {
            count := count + 1;
          }
        }
        CountPositive(temp1, temp1[j], n);
        if count > ntimes {
          lastred := tred;
          ntimes := count;
        }
      }
    }

    /** The loop that clears the entries equal to the default. */
    method ClearDefault()
      requires gen.f.g.ntokens < |temp1|
      modifies `temp1
      ensures temp1 == Cleared(old(temp1), gen.f.g.ntokens, lastred)
    {
      for p := 0 to gen.f.g.ntokens + 1
        invariant |temp1| == |old(temp1)|
        invariant forall q :: 0 <= q < p ==> temp1[q] == if old(temp1)[q] + lastred == 0 then 0 else old(temp1)[q]
        invariant forall q :: p <= q < |temp1| ==> temp1[q] == old(temp1)[q]
      {
        if temp1[p] + lastred == 0 {
          temp1 := temp1[p := 0];
        }
      }
    }

    /** The loop that writes the exceptions of state i and collects its shifts. */
    method WriteActions(i: nat) returns (os: seq<(int, int)>, flag: nat)
      requires gen.f.g.ntokens < |temp1|
      modifies `exca
      ensures os == Shifts(temp1, gen.f.g.ntokens + 1)
      ensures var exc := Exceptions(temp1, gen.f.g.ntokens + 1);
        (flag == 0 <==> exc == []) && exca == old(exca) + (if exc == [] then [] else [(-1, i)] + exc)
    {
      os, flag := [], 0;
      for p := 0 to gen.f.g.ntokens + 1
        invariant os == Shifts(temp1, p)
        invariant flag == 0 <==> Exceptions(temp1, p) == []
        invariant exca == old(exca) + (if Exceptions(temp1, p) == [] then [] else [(-1, i)] + Exceptions(temp1, p))
      {
        var p1 := temp1[p];
        if p1 != 0 {
          if p1 < 0 {
            p1 := 0 - p1;
          } else if p1 == ACCEPTCODE {
            p1 := -1;
          } else if p1 == ERRCODE {
            p1 := 0;
          } else {
            os := os + [(p, p1)];
            continue;
          }
          if flag == 0 {
            exca := exca + [(-1, i as int)];
          }
          flag := flag + 1;
          exca := exca + [(p, p1)];
        }
      }
    }

    /** wract: the row is compressed and written. */
    method Wract(i: nat)
      requires ERRTOK <= gen.f.g.ntokens < |temp1| && |stateTable| == i
      requires Written(stateTable, gen.f.g.ntokens, defact, optst, exca)
      modifies `temp1, `lastred, `defact, `optst, `exca, `stateTable
      ensures Written(stateTable, gen.f.g.ntokens, defact, optst, exca)
      ensures DefaultFor(old(temp1), gen.f.g.ntokens + 1, lastred)
      ensures stateTable ==
        old(stateTable) + [Row(Cleared(old(temp1), gen.f.g.ntokens, lastred), DefaultAction(lastred))]
    {
      hide Written, Cleared, MostUsed, Shifts, Exceptions, ExcaTable, IsShift;
      BestDefault();
      if temp1[2] > 0 {
        lastred := 0;
      }
      ClearDefault();
      var defaultAction := ERRCODE;
      if lastred != 0 {
        defaultAction := 0 - lastred;
      }
      ghost var rows := stateTable;
      var row := Row(temp1, defaultAction);
      stateTable := stateTable + [row];
      var os, flag := WriteActions(i);
      if flag != 0 {
        defact := defact + [-2];
        exca := exca + [(-2, lastred)];
      } else {
        defact := defact + [lastred];
      }
      optst := optst + [os];
      WrittenNext(rows, gen.f.g.ntokens, old(defact), old(optst), old(exca), row);
      assert exca == old(exca) + Block(i, row, gen.f.g.ntokens);
    }

    /** The body of output for state i. */
    method OutputState(i: nat)
      requires gen.Finished() && i < gen.st.nstate && |stateTable| == i
      requires Written(stateTable, gen.f.g.ntokens, defact, optst, exca)
      modifies gen.st, gen.work, `temp1, `lastred, `defact, `optst, `exca, `stateTable
      ensures gen.Finished() && gen.st.auto == old(gen.st.auto) && gen.st.tystate == old(gen.st.tystate)
      ensures gen.st.nstate == old(gen.st.nstate)
      ensures SameKerns(old(gen.st.statemem), old(gen.st.pstate), gen.st.statemem, gen.st.pstate, gen.st.nstate)
      ensures Written(stateTable, gen.f.g.ntokens, defact, optst, exca) && |stateTable| == i + 1
      ensures stateTable[..i] == old(stateTable)
      ensures i < |gen.st.tystate| && RowFrom(gen.f, levprd, toklev, gen.st.auto, i, gen.st.tystate[i] != MUSTLOOKAHEAD,
                                              old(gen.st.Kern(i)), stateTable[i])
    {
      hide ClosureOf, GotosRight, EntriesIn, GotoRow, Trans, Expects, Generator.Finished, FactsOk, Sized, IsCollection,
        FullRow, Written, Cleared, DefaultFor, KernelMatches, SettleAll, RowMade, RowFrom, KernAt, StateList.Valid,
        ClosureDone, KernelShape;
      gen.FinishedFacts();
      var st := gen.st;
      gen.StateKernel(i);
      var nolook := st.tystate[i] != MUSTLOOKAHEAD;
      var kernel := st.statemem[st.pstate[i]..st.pstate[i + 1]];
      gen.work.Closure(kernel, nolook);
      ghost var ws := gen.work.wsets;
      ClosureOfState(gen.f, st.auto, i, nolook, kernel, ws);
      FillGotos(i, nolook, kernel);
      ghost var gotos := temp1;
      GotoRowSize(gen.f.g, st.auto, i, gotos);
      if i == 1 {
        temp1 := temp1[1 := ACCEPTCODE];
      }
      ghost var base := temp1;
      FillReductions(base);
      ghost var full := temp1;
      RowFilledIn(gen.f, levprd, toklev, st.auto, i, ws, gotos, base, full);
      Wract(i);
      RowMadeFrom(gen.f, levprd, toklev, st.auto, i, nolook, kernel, ws, gotos, full, lastred, stateTable[i]);
    }

    /** output: every state's row is made, compressed and written. */
    method Output()
      requires gen.Finished() && Written(stateTable, gen.f.g.ntokens, defact, optst, exca) && stateTable == []
      modifies gen.st, gen.work, `temp1, `lastred, `defact, `optst, `exca, `stateTable
      ensures gen.Finished() && gen.st.auto == old(gen.st.auto) && gen.st.tystate == old(gen.st.tystate)
      ensures gen.st.nstate == old(gen.st.nstate)
      ensures SameKerns(old(gen.st.statemem), old(gen.st.pstate), gen.st.statemem, gen.st.pstate, gen.st.nstate)
      ensures Written(stateTable, gen.f.g.ntokens, defact, optst, exca)
      ensures |stateTable| == gen.st.nstate <= |gen.st.tystate|
      ensures forall i :: 0 <= i < gen.st.nstate ==> RowFrom(gen.f, levprd, toklev, gen.st.auto, i,
                gen.st.tystate[i] != MUSTLOOKAHEAD, gen.st.Kern(i), stateTable[i])
    {
      hide Generator.Finished, FactsOk, Sized, IsCollection, Written, RowFrom, KernAt, StateList.Valid, WellFormed;
      gen.FinishedFacts();
      ghost var sm, ps, m, ty := gen.st.statemem, gen.st.pstate, gen.st.auto, gen.st.tystate;
      for i := 0 to gen.st.nstate
        invariant gen.Finished() && gen.st.auto == m && gen.st.tystate == ty && gen.st.nstate == old(gen.st.nstate)
        invariant SameKerns(sm, ps, gen.st.statemem, gen.st.pstate, gen.st.nstate)
        invariant Written(stateTable, gen.f.g.ntokens, defact, optst, exca) && |stateTable| == i
        invariant forall j :: 0 <= j < i ==>
          RowFrom(gen.f, levprd, toklev, m, j, ty[j] != MUSTLOOKAHEAD, KernAt(sm, ps, j), stateTable[j])
      {
        ghost var rows := stateTable;
        OutputState(i);
        assert forall j :: 0 <= j < i ==> stateTable[j] == rows[j];
      }
    }
  }

  lemma RowFilledIn(f: Facts, levprd: seq<nat>, toklev: seq<nat>, m: Automaton, i: int, ws: seq<Wset>, gotos: seq<int>,
                    base: seq<int>, full: seq<int>)
    requires GotoRow(f.g, m, i, gotos) && |full| == |gotos| > 1
    requires base == (if i == 1 then gotos[1 := ACCEPTCODE] else gotos)
    requires f.g.ntokens < |full| && forall c :: f.g.ntokens < c < |full| ==> full[c] == base[c]
    requires forall t :: 0 <= t <= f.g.ntokens ==> full[t] == SettleAll(levprd, Level(toklev, t), ws, |ws|, t, base[t])
    ensures FullRow(f, levprd, toklev, m, i, ws, gotos, full)
  {
    hide SettleAll, Trans;
  }

  lemma RowMadeFrom(f: Facts, levprd: seq<nat>, toklev: seq<nat>, m: Automaton, i: int, nolook: bool, kernel: seq<Item>,
                    ws: seq<Wset>, gotos: seq<int>, full: seq<int>, lastred: int, row: Row)
    requires ClosureOf(f, m, i, nolook, kernel, ws) && FullRow(f, levprd, toklev, m, i, ws, gotos, full)
    requires ERRTOK <= f.g.ntokens < |full| && DefaultFor(full, f.g.ntokens + 1, lastred)
    requires row == Row(Cleared(full, f.g.ntokens, lastred), DefaultAction(lastred))
    ensures RowFrom(f, levprd, toklev, m, i, nolook, kernel, row)
  {
    assert RowMade(f, levprd, toklev, m, i, nolook, kernel, ws, gotos, full, lastred, row);
  }

  lemma ClosureOfState(f: Facts, m: Automaton, i: int, nolook: bool, kernel: seq<Item>, ws: seq<Wset>)
    requires 0 <= i < |m.kernels| && KernelMatches(f.g, kernel, m.kernels[i]) && ClosureDone(f, nolook, kernel, ws)
    ensures ClosureOf(f, m, i, nolook, kernel, ws)
  {
  }

  lemma GotoRowSize(g: Grammar, m: Automaton, i: int, row: seq<int>)
    requires GotoRow(g, m, i, row)
    ensures RowSize(g, row)
  {
  }

  lemma NoGotosYet(f: Facts, m: Automaton, i: int, nolook: bool, kernel: seq<Item>, ws: seq<Wset>, row: seq<int>)
    requires ClosureOf(f, m, i, nolook, kernel, ws)
    requires |row| == f.g.ntokens + f.g.nnonter + 1 && forall c :: 0 <= c < |row| ==> row[c] == 0
    ensures RowSize(f.g, row) && GotosRight(f.g, m, i, row) && EntriesIn(f.g, ws, row, 0)
  {
  }

  /** A token without an entry has not come up before. */
  lemma NotYet(g: Grammar, ws: seq<Wset>, row: seq<int>, u: nat)
    requires RowSize(g, row) && EntriesIn(g, ws, row, u) && u < |ws|
    requires IsUserSymbol(g, ws[u].pitem.first) && row[Column(g, ws[u].pitem.first)] == 0
    ensures forall k :: 0 <= k < u ==> ws[k].pitem.first != ws[u].pitem.first
  {
  }

  lemma ClosedGoto(f: Facts, m: Automaton, i: int, nolook: bool, kernel: seq<Item>, ws: seq<Wset>, c: int, u: nat)
    requires ClosureOf(f, m, i, nolook, kernel, ws) && c > ENDTOK && u < |ws| && ws[u].pitem.first == c
    ensures var picked := Picked(ws, c, |ws|);
      && CoreShape(f.g, picked) && EnteredBy(f.g, KernelSet(picked), c)
      && IsGoto(f.g, m.kernels[i], c, KernelSet(picked))
    ensures Movable(ws, c) && (IsToken(f.g, c) || NTBASE < c <= NTBASE + f.g.nnonter)
    ensures Expects(f.g, m, i, c)
  {
    PickedIsGoto(f, nolook, kernel, ws, c, u);
    forall k | 0 <= k < |ws|
      ensures PitemOk(f.g, ws[k].pitem)
    {
    }
    PitemShape(f.g, ws[u].pitem);
    forall k | 0 <= k < |ws| && ws[k].pitem.first == c
      ensures 0 <= ws[k].pitem.off && ws[k].pitem.off + 1 < |ws[k].pitem.prod|
    {
      PitemShape(f.g, ws[k].pitem);
    }
    ClosureItems(f, nolook, kernel, ws, ItemOf(ws[u].pitem));
    assert HasItem(ws, ItemOf(ws[u].pitem));
  }

  lemma TargetKnown(g: Grammar, m: Automaton, i: int, c: int, target: set<Lr0>) returns (j: int)
    requires IsCollection(g, m) && Expects(g, m, i, c) && c > ENDTOK && IsGoto(g, m.kernels[i], c, target)
    ensures Trans(g, m, i, c, j) && 0 < j < |m.kernels| && m.kernels[j] == target
  {
    j :| Trans(g, m, i, c, j);
    assert forall it :: it in m.kernels[j] <==> it in target;
  }

  lemma TargetFound(g: Grammar, m: Automaton, i: int, c: int, target: set<Lr0>, j: int)
    requires 0 <= i < |m.kernels| == |m.access| && IsGoto(g, m.kernels[i], c, target)
    requires 0 < j < |m.kernels| && m.kernels[j] == target && m.access[j] == c
    ensures Trans(g, m, i, c, j)
  {
  }

  // ------------------------------------------------------------------ what a row says

  /** With no shift on t, the row reduces by the first rule that the LR(1) closure calls for on
      t, and takes the default when it calls for none. */
  lemma ReductionRow(f: Facts, levprd: seq<nat>, toklev: seq<nat>, m: Automaton, i: int, nolook: bool,
                     kernel: seq<Item>, row: Row, t: nat)
    requires RowFrom(f, levprd, toklev, m, i, nolook, kernel, row) && IsCollection(f.g, m)
    requires nolook ==> 0 <= i < |m.kernels| && NoEmpties(f.g, m.kernels[i])
    requires t <= f.g.ntokens && (t <= ENDTOK || !Expects(f.g, m, i, t)) && !(i == 1 && t == ENDTOK)
    ensures t < |row.actions|
    ensures forall r :: Reduces(f, kernel, r, t) ==> RowAction(row, t) < 0 && 0 - RowAction(row, t) <= r
    ensures (exists r :: Reduces(f, kernel, r, t)) ==> Reduces(f, kernel, 0 - RowAction(row, t), t)
    ensures (forall r :: !Reduces(f, kernel, r, t)) ==> RowAction(row, t) == row.defaultAction
  {
    var ws, gotos, full, lastred :| RowMade(f, levprd, toklev, m, i, nolook, kernel, ws, gotos, full, lastred, row);
    NoShift(f, levprd, toklev, m, i, ws, gotos, full, t);
    NeverZero(f, m, i, nolook, kernel, ws);
    DefaultSign(full, f.g.ntokens + 1, lastred);
    hide ClosureOf, IsCollection, FullRow, GotoRow, Reduces, ReducedBy, Cleared, SettleAll, NoEmpties;
    EarliestRuleWins(levprd, Level(toklev, t), ws, |ws|, t);
    ClearedKeeps(full, f.g.ntokens, lastred, t);
    forall r | r > 0
      ensures ReducedBy(ws, |ws|, t, r) <==> Reduces(f, kernel, r, t)
    {
      LookaheadsSuffice(f, m, i, nolook, kernel, ws, r, t);
    }
    forall r
      ensures Reduces(f, kernel, r, t) ==> r > 0
    {
      ReducesPositive(f, kernel, r, t);
    }
  }

  lemma ReducesPositive(f: Facts, kernel: seq<Item>, r: int, t: nat)
    ensures Reduces(f, kernel, r, t) ==> r > 0
  {
  }

  lemma DefaultSign(full: seq<int>, n: nat, lastred: int)
    requires ERRTOK < n <= |full| && DefaultFor(full, n, lastred)
    ensures lastred >= 0
  {
  }

  lemma NoShift(f: Facts, levprd: seq<nat>, toklev: seq<nat>, m: Automaton, i: int, ws: seq<Wset>, gotos: seq<int>,
                full: seq<int>, t: nat)
    requires FullRow(f, levprd, toklev, m, i, ws, gotos, full)
    requires t <= f.g.ntokens && (t <= ENDTOK || !Expects(f.g, m, i, t)) && !(i == 1 && t == ENDTOK)
    ensures t < |full| && full[t] == SettleAll(levprd, Level(toklev, t), ws, |ws|, t, 0)
  {
    if t > ENDTOK {
      assert IsUserSymbol(f.g, t) && Column(f.g, t) == t;
      if gotos[t] != 0 {
        TransExpects(f.g, m, i, t, gotos[t]);
      }
    }
  }

  /** With a shift and no reduction the row shifts. */
  lemma ShiftRow(f: Facts, levprd: seq<nat>, toklev: seq<nat>, m: Automaton, i: int, nolook: bool, kernel: seq<Item>,
                 row: Row, t: nat)
    requires RowFrom(f, levprd, toklev, m, i, nolook, kernel, row) && IsCollection(f.g, m) && |m.kernels| < NSTATES
    requires nolook ==> 0 <= i < |m.kernels| && NoEmpties(f.g, m.kernels[i])
    requires ENDTOK < t <= f.g.ntokens && Expects(f.g, m, i, t) && forall r :: !Reduces(f, kernel, r, t)
    ensures t < |row.actions| && Trans(f.g, m, i, t, RowAction(row, t))
  {
    hide ClosureOf, IsCollection, FullRow, GotoRow, Reduces, ReducedBy, Cleared, SettleAll, Trans, Expects, NoEmpties,
      DefaultFor;
    var ws, gotos, full, lastred :| RowMade(f, levprd, toklev, m, i, nolook, kernel, ws, gotos, full, lastred, row);
    WithShift(f, levprd, toklev, m, i, ws, gotos, full, t);
    DefaultSign(full, f.g.ntokens + 1, lastred);
    ClearedKeeps(full, f.g.ntokens, lastred, t);
    forall k | 0 <= k < |ws|
      ensures !Reducing(ws[k], t)
    {
      if Reducing(ws[k], t) {
        EntryReduces(f, m, i, nolook, kernel, ws, k, t);
      }
    }
    NothingReduces(levprd, Level(toklev, t), ws, |ws|, t, gotos[t]);
  }

  /** State 1 accepts at the end of the input when nothing is reduced there. */
  lemma AcceptRow(f: Facts, levprd: seq<nat>, toklev: seq<nat>, m: Automaton, nolook: bool, kernel: seq<Item>, row: Row)
    requires RowFrom(f, levprd, toklev, m, 1, nolook, kernel, row) && IsCollection(f.g, m) && f.g.ntokens >= ENDTOK
    requires nolook ==> 1 < |m.kernels| && NoEmpties(f.g, m.kernels[1])
    requires forall r :: !Reduces(f, kernel, r, ENDTOK)
    ensures ENDTOK < |row.actions| && RowAction(row, ENDTOK) == ACCEPTCODE
  {
    hide ClosureOf, IsCollection, FullRow, GotoRow, Reduces, ReducedBy, Cleared, SettleAll, Trans, Expects, NoEmpties,
      DefaultFor;
    var ws, gotos, full, lastred :| RowMade(f, levprd, toklev, m, 1, nolook, kernel, ws, gotos, full, lastred, row);
    FullCell(f, levprd, toklev, m, 1, ws, gotos, full, ENDTOK);
    DefaultSign(full, f.g.ntokens + 1, lastred);
    ClearedKeeps(full, f.g.ntokens, lastred, ENDTOK);
    forall k | 0 <= k < |ws|
      ensures !Reducing(ws[k], ENDTOK)
    {
      if Reducing(ws[k], ENDTOK) {
        EntryReduces(f, m, 1, nolook, kernel, ws, k, ENDTOK);
      }
    }
    NothingReduces(levprd, Level(toklev, ENDTOK), ws, |ws|, ENDTOK, ACCEPTCODE);
  }

  /** Against one reduction precedence and associativity decide. */
  lemma ConflictRow(f: Facts, levprd: seq<nat>, toklev: seq<nat>, m: Automaton, i: int, nolook: bool, kernel: seq<Item>,
                    row: Row, t: nat, r: int)
    requires RowFrom(f, levprd, toklev, m, i, nolook, kernel, row) && IsCollection(f.g, m) && |m.kernels| < NSTATES
    requires nolook ==> 0 <= i < |m.kernels| && NoEmpties(f.g, m.kernels[i])
    requires ENDTOK < t <= f.g.ntokens && Expects(f.g, m, i, t)
    requires Reduces(f, kernel, r, t) && forall q :: Reduces(f, kernel, q, t) ==> q == r
    ensures t < |row.actions| && Decided(f.g, m, i, t, RowAction(row, t), r, Level(levprd, r), Level(toklev, t))
  {
    hide ClosureOf, IsCollection, FullRow, GotoRow, Reduces, ReducedBy, Cleared, SettleAll, Trans, Expects, NoEmpties,
      DefaultFor;
    var ws, gotos, full, lastred :| RowMade(f, levprd, toklev, m, i, nolook, kernel, ws, gotos, full, lastred, row);
    WithShift(f, levprd, toklev, m, i, ws, gotos, full, t);
    DefaultSign(full, f.g.ntokens + 1, lastred);
    ReducesPositive(f, kernel, r, t);
    ClearedKeeps(full, f.g.ntokens, lastred, t);
    OnlyReduction(f, levprd, Level(toklev, t), m, i, nolook, kernel, ws, gotos[t], r, t);
  }

  /** Action a settles a conflict between the shift on t and the reduction by r. */
  ghost predicate Decided(g: Grammar, m: Automaton, i: int, t: int, a: int, r: int, lp: nat, lt: nat) {
    exists shift :: Trans(g, m, i, t, shift) && Judged(lp, lt, r, shift, a)
  }

  lemma WithShift(f: Facts, levprd: seq<nat>, toklev: seq<nat>, m: Automaton, i: int, ws: seq<Wset>, gotos: seq<int>,
                  full: seq<int>, t: nat)
    requires FullRow(f, levprd, toklev, m, i, ws, gotos, full) && ENDTOK < t <= f.g.ntokens && Expects(f.g, m, i, t)
    ensures t < |full| == |gotos| && Trans(f.g, m, i, t, gotos[t]) && gotos[t] > 0
    ensures full[t] == SettleAll(levprd, Level(toklev, t), ws, |ws|, t, gotos[t])
  {
    assert IsUserSymbol(f.g, t) && Column(f.g, t) == t;
  }

  lemma EntryReduces(f: Facts, m: Automaton, i: int, nolook: bool, kernel: seq<Item>, ws: seq<Wset>, k: nat, t: nat)
    requires ClosureOf(f, m, i, nolook, kernel, ws) && (nolook ==> NoEmpties(f.g, m.kernels[i])) && IsCollection(f.g, m)
    requires k < |ws| && Reducing(ws[k], t)
    ensures Reduces(f, kernel, 0 - ws[k].pitem.first, t) && ws[k].pitem.first < 0
  {
    NeverZero(f, m, i, nolook, kernel, ws);
    assert ReducedBy(ws, |ws|, t, 0 - ws[k].pitem.first);
    LookaheadsSuffice(f, m, i, nolook, kernel, ws, 0 - ws[k].pitem.first, t);
  }

  /** A rule is reduced by one entry only. */
  lemma SameRuleSameEntry(f: Facts, m: Automaton, i: int, nolook: bool, kernel: seq<Item>, ws: seq<Wset>, j: nat,
                          k: nat)
    requires ClosureOf(f, m, i, nolook, kernel, ws)
    requires j < |ws| && k < |ws| && ws[j].pitem.first == ws[k].pitem.first <= 0
    ensures j == k
  {
    EntrySymbol(f, m, i, nolook, kernel, ws, j);
    EntrySymbol(f, m, i, nolook, kernel, ws, k);
    assert ItemOf(ws[j].pitem) == ItemOf(ws[k].pitem);
  }

  lemma OnlyReduction(f: Facts, levprd: seq<nat>, lt: nat, m: Automaton, i: int, nolook: bool, kernel: seq<Item>,
                      ws: seq<Wset>, a: int, r: int, t: nat)
    requires ClosureOf(f, m, i, nolook, kernel, ws) && (nolook ==> NoEmpties(f.g, m.kernels[i])) && IsCollection(f.g, m)
    requires a > 0
    requires Reduces(f, kernel, r, t) && forall q :: Reduces(f, kernel, q, t) ==> q == r
    ensures var lp := Level(levprd, r);
      Judged(lp, lt, r, a, SettleAll(levprd, lt, ws, |ws|, t, a))
  {
    hide IsCollection, Reduces, SettleAll, NoEmpties, Judged;
    var k := ReducingEntry(f, m, i, nolook, kernel, ws, r, t);
    EntryReduces(f, m, i, nolook, kernel, ws, k, t);
    forall j | 0 <= j < |ws| && j != k
      ensures !Reducing(ws[j], t)
    {
      if Reducing(ws[j], t) {
        EntryReduces(f, m, i, nolook, kernel, ws, j, t);
        SameRuleSameEntry(f, m, i, nolook, kernel, ws, j, k);
      }
    }
    OneReductionResolved(levprd, lt, ws, |ws|, t, a, k);
  }
}
