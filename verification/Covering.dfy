/** What the recorded blocks cover (cmd/cover/cover.go): each statement of the source exactly once. */
module Covering {
  import opened CoverSyntax
  import opened CoverRuns
  import opened Counters
  import opened CoverBlocks

  // ---------- the source ----------

  /** A statement list of the source: where what it covers starts and, for a list in braces, the
      closing brace (whole); for the body of a clause end is where the clause ends. */
  datatype Body = Body(start: int, end: int, list: seq<Item>, whole: bool)

  function BlockBodies(start: int, end: int, list: seq<Item>): set<Body>
    decreases ListHeight(list), 2, |list|
  {
    {Body(start, end, list, true)} + ListBodies(list)
  }

  function ListBodies(l: seq<Item>): set<Body>
    decreases ListHeight(l), 1, |l|
  {
    if l == [] then {} else (if l[0].Do? then StmtBodies(l[0].stmt) else {}) + ListBodies(l[1..])
  }

  /** All lists inside a statement. An if after else stands in a list of its own, and what follows
      else is covered from the end of the body before it. */
  function StmtBodies(s: Stmt): set<Body>
    decreases Height(s), 0, 0
  {
    match s
    case Basic(_, _, _) => {}
    case BlockStmt(b) => BlockBodies(b.lbrace, b.rbrace + 1, b.list)
    case If(_, b, els) => BlockBodies(b.lbrace, b.rbrace + 1, b.list) + ElseBodies(b.rbrace + 1, els)
    case Loop(_, b) => BlockBodies(b.lbrace, b.rbrace + 1, b.list)
    case Switch(_, _, cs, _) => ClauseLists(cs) + ClauseBodies(cs)
    case Labeled(_, _, inner) => StmtBodies(inner)
  }

  function ElseBodies(start: int, els: Else): set<Body>
    decreases ElseHeight(els), 3, 0
  {
    match els
    case NoElse => {}
    case ElseIf(s) => {Body(start, End(s) + 1, [Do(s)], true)} + StmtBodies(s)
    case ElseBlock(b) => BlockBodies(start, b.rbrace + 1, b.list)
  }

  function ClauseLists(cs: seq<Clause>): set<Body> {
    if cs == [] then {} else {Body(cs[0].pos, ClauseEnd(cs[0]), cs[0].body, false)} + ClauseLists(cs[1..])
  }

  function ClauseBodies(cs: seq<Clause>): set<Body>
    decreases ClausesHeight(cs), 2, |cs|
  {
    if cs == [] then {} else ListBodies(cs[0].body) + ClauseBodies(cs[1..])
  }

  function FuncBodies(fs: seq<Block>): set<Body> {
    if fs == [] then {} else BlockBodies(fs[0].lbrace, fs[0].rbrace + 1, fs[0].list) + FuncBodies(fs[1..])
  }

  /** A simple statement is covered to its end, one with a body to its opening brace. */
  function Reach(s: Stmt): int {
    match s
    case Basic(_, end, _) => end
    case BlockStmt(b) => b.lbrace
    case If(_, b, _) => b.lbrace
    case Loop(_, b) => b.lbrace
    case Switch(_, lbrace, _, _) => lbrace
    case Labeled(_, _, inner) => Reach(inner)
  }

  /** After the statement the next one follows, unless the function is left. */
  predicate GoesOn(s: Stmt) {
    match s
    case Basic(_, _, action) => action.Expression? || action.Return?
    case Labeled(_, _, inner) => GoesOn(inner)
    case _ => false
  }

  lemma {:induction false} BoundaryIsReach(s: Stmt)
    ensures Boundary(s) == Reach(s) && (EndsBasicBlock(s) <==> !GoesOn(s))
    decreases s
  {
    match s
    case Labeled(_, _, inner) => BoundaryIsReach(inner);
    case _ =>
  }

  // ---------- what it means to cover it ----------

  /** The block covers the statement. */
  predicate In(block: CoverBlock, item: Item) {
    && item.Do? && block.start <= Pos(item.stmt) && Reach(item.stmt) <= block.end
    && block.start < Reach(item.stmt)
  }

  /** Statements i to j - 1 of the body are a basic block: nothing but the last leads elsewhere, and
      it is as long as it can be. */
  ghost predicate IsBasic(b: Body, i: nat, j: nat) {
    && i < j <= |b.list| && AllDo(b.list)
    && (i > 0 ==> !GoesOn(b.list[i - 1].stmt)) && (j < |b.list| ==> !GoesOn(b.list[j - 1].stmt))
    && forall x :: i <= x < j - 1 ==> GoesOn(b.list[x].stmt)
  }

  function From(b: Body, i: nat): int {
    if 0 < i < |b.list| && b.list[i].Do? then Pos(b.list[i].stmt) else b.start
  }

  /** A body in braces is covered to the closing brace if nothing in it leads elsewhere. */
  function To(b: Body, i: nat, j: nat): int
    requires i < j <= |b.list| && b.list[j - 1].Do?
  {
    if b.whole && i == 0 && j == |b.list| && GoesOn(b.list[j - 1].stmt) then b.end else Reach(b.list[j - 1].stmt)
  }

  /** r is the record of statements i to j - 1. */
  ghost predicate BlockOf(b: Body, i: nat, j: nat, r: Recorded) {
    if b.list == [] then i == j == 0 && r.block == CoverBlock(b.start, b.end, 0)
    else
      && IsBasic(b, i, j) && r.block == CoverBlock(From(b, i), To(b, i, j), j - i)
      && r.first == Enter(Pos(b.list[i].stmt)) && r.block.start < r.block.end
  }

  /** A statement without extent, such as a bare block, that would have a basic block to itself has
      none: its own list has a counter where it starts. */
  ghost predicate Bare(b: Body, x: nat) {
    && 0 < x < |b.list| && b.list[x - 1].Do? && b.list[x].Do?
    && !GoesOn(b.list[x - 1].stmt) && Pos(b.list[x].stmt) == Reach(b.list[x].stmt)
  }

  /** r is the record of statements i to j - 1 of b, and covers these and no others. */
  ghost predicate Holds(r: Recorded, bodies: set<Body>, b: Body, i: nat, j: nat) {
    && b in bodies && BlockOf(b, i, j, r)
    && forall d, x :: d in bodies && 0 <= x < |d.list| ==> (In(r.block, d.list[x]) <==> d == b && i <= x < j)
  }

  ghost predicate Known(r: Recorded, bodies: set<Body>) {
    exists b, i: nat, j: nat :: Holds(r, bodies, b, i, j)
  }

  ghost predicate InSome(rs: seq<Recorded>, item: Item) {
    exists k :: 0 <= k < |rs| && In(rs[k].block, item)
  }

  ghost predicate Empty(r: Recorded, b: Body) {
    r.block == CoverBlock(b.start, b.end, 0)
  }

  /** Each statement of the list is in a block, if it is not bare; an empty list has a block. */
  ghost predicate Covered(rs: seq<Recorded>, b: Body) {
    && (forall x :: 0 <= x < |b.list| && !Bare(b, x) ==> InSome(rs, b.list[x]))
    && (b.list == [] ==> exists k :: 0 <= k < |rs| && Empty(rs[k], b))
  }

  ghost predicate Covers(rs: seq<Recorded>, bodies: set<Body>) {
    && (forall k :: 0 <= k < |rs| ==> Known(rs[k], bodies))
    && forall b :: b in bodies ==> Covered(rs, b)
  }

  /** The blocks cover nothing of these bodies. */
  ghost predicate Foreign(rs: seq<Recorded>, bodies: set<Body>) {
    forall k, d, x :: 0 <= k < |rs| && d in bodies && 0 <= x < |d.list| ==> !In(rs[k].block, d.list[x])
  }

  lemma CoversBoth(a: seq<Recorded>, A: set<Body>, b: seq<Recorded>, B: set<Body>)
    requires Covers(a, A) && Covers(b, B) && Foreign(a, B) && Foreign(b, A)
    ensures Covers(a + b, A + B)
  {
    hide In, BlockOf, Bare, Empty;
    var rs := a + b;
    forall k | 0 <= k < |rs|
      ensures Known(rs[k], A + B)
    {
      var own, other := if k < |a| then A else B, if k < |a| then B else A;
      assert Known(rs[k], own);
      var d, i: nat, j: nat :| Holds(rs[k], own, d, i, j);
      assert k < |a| ==> rs[k] == a[k];
      assert k >= |a| ==> rs[k] == b[k - |a|];
      assert Holds(rs[k], A + B, d, i, j);
    }
    forall d | d in A + B
      ensures Covered(rs, d)
    {
      CoveredLonger(a, b, d);
    }
  }

  lemma CoveredLonger(a: seq<Recorded>, b: seq<Recorded>, d: Body)
    ensures Covered(a, d) || Covered(b, d) ==> Covered(a + b, d)
  {
    hide In, Bare, Empty;
    var rs := a + b;
    forall x | 0 <= x < |d.list| && (InSome(a, d.list[x]) || InSome(b, d.list[x]))
      ensures InSome(rs, d.list[x])
    {
      if InSome(a, d.list[x]) {
        var k :| 0 <= k < |a| && In(a[k].block, d.list[x]);
        assert rs[k] == a[k];
      } else {
        var k :| 0 <= k < |b| && In(b[k].block, d.list[x]);
        assert rs[|a| + k] == b[k];
      }
    }
    if k :| 0 <= k < |a| && Empty(a[k], d) {
      assert rs[k] == a[k];
    }
    if k :| 0 <= k < |b| && Empty(b[k], d) {
      assert rs[|a| + k] == b[k];
    }
  }

  lemma CoversNothing()
    ensures Covers([], {}) && Foreign([], {})
  {
  }

  // ---------- one list ----------

  /** Between two statements there is a semicolon or a newline, and a simple statement has some
      text; only a label may stand before nothing. */
  ghost predicate Spaced(list: seq<Item>) {
    && (forall x :: 0 <= x < |list| - 1 && list[x].Do? && list[x + 1].Do? ==>
          End(list[x].stmt) < Pos(list[x + 1].stmt))
    && forall x :: 0 <= x < |list| && list[x].Do? && list[x].stmt.Basic? ==> Pos(list[x].stmt) < End(list[x].stmt)
  }

  /** Only a bare block starts where it ends, for its list. */
  lemma Extended(l: seq<Item>, lo: int, hi: int, x: nat)
    requires AllDo(l) && PlacedList(l, lo, hi) && Spaced(l) && x < |l|
    ensures Pos(l[x].stmt) == Reach(l[x].stmt) ==> !GoesOn(l[x].stmt)
  {
    assert l[x] == Do(l[x].stmt) && l[x] in l;
    ListExtent(l, lo, hi, l[x].stmt);
    if l[x].stmt.Labeled? {
      StmtExtent(l[x].stmt.stmt);
      BoundaryIsReach(l[x].stmt.stmt);
    }
  }

  ghost predicate AllSpaced(bodies: set<Body>) {
    forall b :: b in bodies ==> Spaced(b.list)
  }

  /** Where the statements of a list are: one after the other. */
  lemma {:induction false} InLine(l: seq<Item>, lo: int, hi: int, x: nat, y: nat)
    requires AllDo(l) && PlacedList(l, lo, hi) && Spaced(l) && x <= y < |l|
    ensures lo <= Pos(l[x].stmt) <= Reach(l[x].stmt) <= End(l[x].stmt) <= hi
    ensures x < y ==> End(l[x].stmt) < Pos(l[y].stmt)
    decreases y
  {
    assert l[x] == Do(l[x].stmt) && l[x] in l;
    ListExtent(l, lo, hi, l[x].stmt);
    StmtExtent(l[x].stmt);
    BoundaryIsReach(l[x].stmt);
    if x < y {
      InLine(l, lo, hi, x, y - 1);
      assert l[y - 1] == Do(l[y - 1].stmt) && l[y - 1] in l;
      ListExtent(l, lo, hi, l[y - 1].stmt);
      StmtExtent(l[y - 1].stmt);
    }
  }

  ghost predicate PlacedBody(b: Body, lo: int, hi: int) {
    && AllDo(b.list) && PlacedList(b.list, lo, hi) && Spaced(b.list) && b.start < lo
    && (b.whole ==> hi <= b.end) && (b.list == [] ==> b.start < b.end)
  }

  /** The record of a basic block covers exactly its statements. */
  lemma BlockHolds(b: Body, lo: int, hi: int, i: nat, j: nat, r: Recorded)
    requires PlacedBody(b, lo, hi) && BlockOf(b, i, j, r)
    ensures Holds(r, {b}, b, i, j)
  {
    hide PlacedList, GoesOn, Reach, End, Pos;
    forall x | 0 <= x < |b.list|
      ensures In(r.block, b.list[x]) <==> i <= x < j
    {
      InLine(b.list, lo, hi, x, x);
      InLine(b.list, lo, hi, j - 1, j - 1);
      InLine(b.list, lo, hi, i, i);
      if x < i {
        InLine(b.list, lo, hi, x, i);
      } else if x >= j {
        InLine(b.list, lo, hi, j - 1, x);
      } else {
        Extended(b.list, lo, hi, i);
        if i < x {
          InLine(b.list, lo, hi, i, x);
        }
        if x < j - 1 {
          InLine(b.list, lo, hi, x, j - 1);
        }
      }
    }
  }

  /** rs are the records of the basic blocks of b from statement i on. */
  ghost predicate Tail(b: Body, i: nat, rs: seq<Recorded>) {
    && (forall k :: 0 <= k < |rs| ==> BlockSome(b, rs[k]))
    && forall x: nat :: i <= x < |b.list| && !Bare(b, x) ==> AtSome(b, rs, x)
  }

  ghost predicate BlockSome(b: Body, r: Recorded) {
    exists p: nat, q: nat :: BlockOf(b, p, q, r)
  }

  ghost predicate AtSome(b: Body, rs: seq<Recorded>, x: nat) {
    exists k: nat, p: nat, q: nat :: BlockAt(b, p, q, rs, k, x)
  }

  ghost predicate BlockAt(b: Body, p: nat, q: nat, rs: seq<Recorded>, k: nat, x: nat) {
    k < |rs| && BlockOf(b, p, q, rs[k]) && p <= x < q
  }

  /** The scan finds the basic block at i. */
  lemma BasicAt(b: Body, i: nat)
    requires AllDo(b.list) && i < |b.list| && (i > 0 ==> !GoesOn(b.list[i - 1].stmt))
    ensures var k := BasicLength(b.list[i..]);
      && IsBasic(b, i, i + k)
      && Boundary(b.list[i + k - 1].stmt) == Reach(b.list[i + k - 1].stmt)
      && (EndsBasicBlock(b.list[i + k - 1].stmt) <==> !GoesOn(b.list[i + k - 1].stmt))
  {
    hide Reach, Boundary, EndsBasicBlock, GoesOn, BasicLength;
    var l := b.list[i..];
    var k := BasicLength(l);
    forall x | 0 <= x < |l|
      ensures l[x] == b.list[i + x] && Boundary(l[x].stmt) == Reach(l[x].stmt)
      ensures EndsBasicBlock(l[x].stmt) <==> !GoesOn(b.list[i + x].stmt)
    {
      BoundaryIsReach(l[x].stmt);
    }
    forall x | i <= x < i + k - 1
      ensures GoesOn(b.list[x].stmt)
    {
      assert l[x - i] == b.list[x];
    }
    assert l[k - 1] == b.list[i + k - 1];
  }

  /** The record that addCounters makes of it. */
  lemma OneRecord(b: Body, lo: int, hi: int, i: nat, extend: bool)
    requires PlacedBody(b, lo, hi) && i < |b.list| && (i > 0 ==> !GoesOn(b.list[i - 1].stmt))
    requires extend == (b.whole && i == 0)
    ensures var k := BasicLength(b.list[i..]);
      var here := BasicBlock(From(b, i), b.end, b.list[i..], extend);
      && IsBasic(b, i, i + k)
      && (here == [] ==> k == 1 && Bare(b, i))
      && (here != [] ==> here == [here[0]] && BlockOf(b, i, i + k, here[0]))
  {
    hide PlacedList, Reach, End, Pos, Boundary, EndsBasicBlock, GoesOn, BasicLength, Spaced;
    var k := BasicLength(b.list[i..]);
    BasicAt(b, i);
    assert b.list[i..][k - 1] == b.list[i + k - 1] && b.list[i..][0] == b.list[i];
    InLine(b.list, lo, hi, i, i + k - 1);
    InLine(b.list, lo, hi, i + k - 1, i + k - 1);
  }

  lemma {:induction false} AddedTail(b: Body, lo: int, hi: int, i: nat, extend: bool, n: nat)
    requires PlacedBody(b, lo, hi) && i < |b.list| && (i > 0 ==> !GoesOn(b.list[i - 1].stmt))
    requires extend == (b.whole && i == 0)
    ensures Tail(b, i, AddToBlocks(From(b, i), b.end, b.list[i..], extend, n).1)
    decreases |b.list| - i
  {
    hide PlacedBody, BasicBlock, BasicLength, AddToBlocks, GoesOn, Bare, BlockOf, Tail;
    var l := b.list[i..];
    BodyAllDo(b, lo, hi, i);
    var k := BasicLength(l);
    var here := BasicBlock(From(b, i), b.end, l, extend);
    OneRecord(b, lo, hi, i, extend);
    AddedRecords(From(b, i), b.end, l, extend, n);
    var more := [];
    if k < |l| {
      assert l[k..] == b.list[i + k..] && l[k] == b.list[i + k];
      AddedTail(b, lo, hi, i + k, false, n + |here|);
      more := AddToBlocks(From(b, i + k), b.end, b.list[i + k..], false, n + |here|).1;
    }
    TailNext(b, i, i + k, here, more);
  }

  lemma AddedRecords(pos: int, blockEnd: int, list: seq<Item>, extend: bool, n: nat)
    requires list != [] && AllDo(list)
    ensures var k, here := BasicLength(list), BasicBlock(pos, blockEnd, list, extend);
      AddToBlocks(pos, blockEnd, list, extend, n).1 ==
        here + if k < |list| then AddToBlocks(Pos(list[k].stmt), blockEnd, list[k..], false, n + |here|).1 else []
  {
    hide BasicBlock, AddToBlocks;
    AddStep(pos, blockEnd, list, extend, n);
    var here := BasicBlock(pos, blockEnd, list, extend);
    assert here + [] == here;
  }

  lemma BodyAllDo(b: Body, lo: int, hi: int, i: nat)
    requires PlacedBody(b, lo, hi) && i <= |b.list|
    ensures AllDo(b.list) && AllDo(b.list[i..])
  {
  }

  lemma TailNext(b: Body, i: nat, j: nat, here: seq<Recorded>, more: seq<Recorded>)
    requires IsBasic(b, i, j) && |here| <= 1
    requires here == [] ==> j == i + 1 && Bare(b, i)
    requires here != [] ==> BlockOf(b, i, j, here[0])
    requires if j < |b.list| then Tail(b, j, more) else more == []
    ensures Tail(b, i, here + more)
  {
    hide Bare, BlockOf, IsBasic;
    var rs := here + more;
    forall k | 0 <= k < |rs|
      ensures BlockSome(b, rs[k])
    {
      if k < |here| {
        assert rs[k] == here[0] && BlockOf(b, i, j, rs[k]);
      } else {
        assert rs[k] == more[k - |here|];
      }
    }
    forall x: nat | i <= x < |b.list| && !Bare(b, x)
      ensures AtSome(b, rs, x)
    {
      if x < j {
        assert rs[0] == here[0] && BlockAt(b, i, j, rs, 0, x);
      } else {
        assert AtSome(b, more, x);
        var k: nat, p: nat, q: nat :| BlockAt(b, p, q, more, k, x);
        assert rs[|here| + k] == more[k];
        assert BlockAt(b, p, q, rs, |here| + k, x);
      }
    }
  }

  /** The records that addCounters makes of a list cover it. */
  lemma CountedCovers(b: Body, lo: int, hi: int, n: nat, entry: Event)
    requires PlacedBody(b, lo, hi)
    ensures Covers(AddCounters(b.start, b.end, b.list, b.whole, n, entry).1, {b})
  {
    hide PlacedBody, AddToBlocks, GoesOn, Bare, In;
    BodyAllDo(b, lo, hi, 0);
    var rs := AddCounters(b.start, b.end, b.list, b.whole, n, entry).1;
    if b.list == [] {
      assert BlockOf(b, 0, 0, rs[0]);
      BlockHolds(b, lo, hi, 0, 0, rs[0]);
      assert Empty(rs[0], b);
    } else {
      assert b.list[0..] == b.list;
      AddedTail(b, lo, hi, 0, b.whole, n);
      TailCovers(b, lo, hi, rs);
    }
  }

  lemma TailCovers(b: Body, lo: int, hi: int, rs: seq<Recorded>)
    requires PlacedBody(b, lo, hi) && Tail(b, 0, rs) && b.list != []
    ensures Covers(rs, {b})
  {
    hide PlacedBody, GoesOn, Bare, In, BlockOf;
    forall k | 0 <= k < |rs|
      ensures Known(rs[k], {b})
    {
      assert BlockSome(b, rs[k]);
      var p: nat, q: nat :| BlockOf(b, p, q, rs[k]);
      BlockHolds(b, lo, hi, p, q, rs[k]);
    }
    forall x | 0 <= x < |b.list| && !Bare(b, x)
      ensures InSome(rs, b.list[x])
    {
      assert AtSome(b, rs, x);
      var k: nat, p: nat, q: nat :| BlockAt(b, p, q, rs, k, x);
      BlockHolds(b, lo, hi, p, q, rs[k]);
    }
  }

  // ---------- where the statements inside are ----------

  /** The statements of the bodies lie behind lo, and are covered before hi. */
  ghost predicate Lies(bodies: set<Body>, lo: int, hi: int) {
    forall d, x :: d in bodies && 0 <= x < |d.list| && d.list[x].Do? ==>
      lo < Pos(d.list[x].stmt) <= Reach(d.list[x].stmt) <= hi
  }

  lemma LiesWider(bodies: set<Body>, lo: int, hi: int, lo': int, hi': int)
    requires Lies(bodies, lo, hi) && lo' <= lo && hi <= hi'
    ensures Lies(bodies, lo', hi')
  {
    hide Pos, Reach;
  }

  lemma LiesBoth(A: set<Body>, B: set<Body>, lo: int, hi: int)
    requires Lies(A, lo, hi) && Lies(B, lo, hi)
    ensures Lies(A + B, lo, hi)
  {
    hide Pos, Reach;
  }

  lemma {:induction false} OneLies(b: Body, lo: int, hi: int)
    requires PlacedList(b.list, lo, hi)
    ensures Lies({b}, lo - 1, hi)
  {
    hide PlacedList, Pos, Reach;
    forall x | 0 <= x < |b.list| && b.list[x].Do?
      ensures lo <= Pos(b.list[x].stmt) <= Reach(b.list[x].stmt) <= hi
    {
      assert b.list[x] == Do(b.list[x].stmt) && b.list[x] in b.list;
      ListExtent(b.list, lo, hi, b.list[x].stmt);
      StmtExtent(b.list[x].stmt);
      BoundaryIsReach(b.list[x].stmt);
    }
  }

  lemma {:induction false} BlockLies(start: int, end: int, list: seq<Item>, lo: int, hi: int)
    requires SourceItems(list) && PlacedList(list, lo, hi)
    ensures Lies(BlockBodies(start, end, list), lo - 1, hi)
    decreases ListHeight(list), 2, |list|
  {
    hide PlacedList, Lies, ListBodies;
    OneLies(Body(start, end, list, true), lo, hi);
    ListLies(list, lo, hi);
    LiesWider(ListBodies(list), lo, hi, lo - 1, hi);
    LiesBoth({Body(start, end, list, true)}, ListBodies(list), lo - 1, hi);
  }

  lemma {:induction false} ListLies(l: seq<Item>, lo: int, hi: int)
    requires SourceItems(l) && PlacedList(l, lo, hi)
    ensures Lies(ListBodies(l), lo, hi)
    decreases ListHeight(l), 1, |l|
  {
    hide StmtBodies, Placed;
    if l != [] {
      ListLies(l[1..], ItemEnd(l[0], lo), hi);
      if l[0].Do? {
        var s := l[0].stmt;
        assert PlacedItem(l[0], lo) && SourceItem(l[0]);
        StmtExtent(s);
        BoundaryIsReach(s);
        ListBounds(l[1..], Span(s), hi);
        StmtLies(s);
        LiesWider(StmtBodies(s), Reach(s), End(s), lo, hi);
        LiesWider(ListBodies(l[1..]), Span(s), hi, lo, hi);
      }
    }
  }

  lemma {:induction false} StmtLies(s: Stmt)
    requires Source(s) && Placed(s)
    ensures Lies(StmtBodies(s), Reach(s), End(s))
    decreases Height(s), 0, 0
  {
    hide PlacedList, Lies, BlockBodies, ElseBodies, ClauseLists, ClauseBodies, PlacedClauses, PlacedElse, SourceItems,
      SourceClauses;
    StmtExtent(s);
    BoundaryIsReach(s);
    match s
    case Basic(_, _, _) =>
      NothingLies(Reach(s), End(s));
    case BlockStmt(b) =>
      assert PlacedBlock(b);
      BlockLies(b.lbrace, BlockEnd(b), b.list, b.lbrace + 1, BlockEnd(b));
    case If(_, b, els) =>
      assert PlacedBlock(b) && PlacedElse(els, BlockEnd(b));
      var body, other := BlockBodies(b.lbrace, BlockEnd(b), b.list), ElseBodies(BlockEnd(b), els);
      ElseExtent(BlockEnd(b), els);
      BlockLies(b.lbrace, BlockEnd(b), b.list, b.lbrace + 1, BlockEnd(b));
      ElseLies(BlockEnd(b), els);
      assert End(s) == ElseEnd(BlockEnd(b), els);
      LiesWider(body, b.lbrace, BlockEnd(b), b.lbrace, End(s));
      LiesWider(other, BlockEnd(b), End(s), b.lbrace, End(s));
      LiesBoth(body, other, b.lbrace, End(s));
    case Loop(_, b) =>
      assert PlacedBlock(b);
      BlockLies(b.lbrace, BlockEnd(b), b.list, b.lbrace + 1, BlockEnd(b));
    case Switch(_, lbrace, cs, rbrace) =>
      ClausesLie(cs, lbrace + 1, rbrace + 1);
      LiesWider(ClauseLists(cs), lbrace + 1, rbrace + 1, lbrace, rbrace + 1);
      LiesWider(ClauseBodies(cs), lbrace + 1, rbrace + 1, lbrace, rbrace + 1);
      LiesBoth(ClauseLists(cs), ClauseBodies(cs), lbrace, rbrace + 1);
    case Labeled(_, _, inner) =>
      StmtLies(inner);
  }

  lemma NothingLies(lo: int, hi: int)
    ensures Lies({}, lo, hi)
  {
  }

  lemma {:induction false} ElseLies(start: int, els: Else)
    requires SourceElse(els) && PlacedElse(els, start)
    ensures Lies(ElseBodies(start, els), start, ElseEnd(start, els))
    decreases ElseHeight(els), 3, 0
  {
    hide PlacedList, Lies, BlockBodies, StmtBodies, Placed;
    match els
    case NoElse =>
      NothingLies(start, start);
    case ElseIf(s) =>
      StmtExtent(s);
      BoundaryIsReach(s);
      OneLies(Body(start, End(s) + 1, [Do(s)], true), start + 1, End(s)) by {
        OnePlaced(s, start);
      }
      StmtLies(s);
      LiesWider(StmtBodies(s), Reach(s), End(s), start, End(s));
      LiesBoth({Body(start, End(s) + 1, [Do(s)], true)}, StmtBodies(s), start, End(s));
    case ElseBlock(b) =>
      assert PlacedBlock(b);
      PlacedWider(b.list, b.lbrace + 1, BlockEnd(b), start + 1, BlockEnd(b));
      BlockLies(start, BlockEnd(b), b.list, start + 1, BlockEnd(b));
  }

  lemma {:induction false} ClausesLie(cs: seq<Clause>, lo: int, hi: int)
    requires SourceClauses(cs) && PlacedClauses(cs, lo, hi)
    ensures Lies(ClauseLists(cs), lo, hi) && Lies(ClauseBodies(cs), lo, hi)
    decreases ClausesHeight(cs), 2, |cs|
  {
    hide PlacedList, Lies, ListBodies;
    if cs == [] {
      NothingLies(lo, hi);
    } else {
      var c := cs[0];
      assert SourceClause(c);
      var b := Body(c.pos, ClauseEnd(c), c.body, false);
      ClauseExtent(c, hi);
      OneLies(b, c.colon, ClauseSpan(c));
      ListLies(c.body, c.colon, ClauseSpan(c));
      ClausesLie(cs[1..], ClauseSpan(c), hi);
      LiesWider({b}, c.colon - 1, ClauseSpan(c), lo, hi);
      LiesWider(ListBodies(c.body), c.colon, ClauseSpan(c), lo, hi);
      LiesWider(ClauseLists(cs[1..]), ClauseSpan(c), hi, lo, hi);
      LiesWider(ClauseBodies(cs[1..]), ClauseSpan(c), hi, lo, hi);
      LiesBoth({b}, ClauseLists(cs[1..]), lo, hi);
      LiesBoth(ListBodies(c.body), ClauseBodies(cs[1..]), lo, hi);
    }
  }

  // ---------- records elsewhere ----------

  lemma ForeignAfter(rs: seq<Recorded>, bodies: set<Body>, lo: int, mid: int, hi: int)
    requires Within(rs, lo, mid) && Lies(bodies, mid, hi)
    ensures Foreign(rs, bodies)
  {
    hide Pos, Reach;
  }

  lemma ForeignBefore(rs: seq<Recorded>, bodies: set<Body>, lo: int, mid: int, hi: int)
    requires Within(rs, mid, hi) && Lies(bodies, lo, mid)
    ensures Foreign(rs, bodies)
  {
    hide Pos, Reach;
  }

  lemma ForeignBoth(a: seq<Recorded>, b: seq<Recorded>, A: set<Body>, B: set<Body>)
    requires Foreign(a, A) && Foreign(a, B) && Foreign(b, A) && Foreign(b, B)
    ensures Foreign(a + b, A + B)
  {
    hide In;
  }

  /** Records that leave room for the statements cover nothing inside them. */
  lemma {:induction false} ForeignInside(rs: seq<Recorded>, l: seq<Item>, lo: int, hi: int)
    requires AllClear(rs, l) && SourceItems(l) && PlacedList(l, lo, hi)
    ensures Foreign(rs, ListBodies(l))
  {
    hide StmtBodies, Placed, In;
    if l != [] {
      ForeignInside(rs, l[1..], ItemEnd(l[0], lo), hi);
      if l[0].Do? {
        assert PlacedItem(l[0], lo) && SourceItem(l[0]) && l[0] == Do(l[0].stmt) && l[0] in l;
        ForeignInOne(rs, l, l[0].stmt);
      }
    }
  }

  lemma ForeignInOne(rs: seq<Recorded>, l: seq<Item>, s: Stmt)
    requires AllClear(rs, l) && Do(s) in l && Source(s) && Placed(s)
    ensures Foreign(rs, StmtBodies(s))
  {
    hide StmtBodies, Pos, Reach, End, Placed, Source;
    StmtLies(s);
    BoundaryIsReach(s);
    forall k, d, x | 0 <= k < |rs| && d in StmtBodies(s) && 0 <= x < |d.list|
      ensures !In(rs[k].block, d.list[x])
    {
      assert ClearOf(rs[k], s);
    }
  }

  /** Records inside statements of a list cover nothing of the list itself. */
  lemma ForeignOutside(rs: seq<Recorded>, l: seq<Item>, b: Body, lo: int, hi: int)
    requires AllInside(rs, l) && PlacedBody(b, lo, hi) && forall s :: Do(s) in l <==> Do(s) in b.list
    ensures Foreign(rs, {b})
  {
    hide PlacedList, Pos, Reach, End;
    forall k, x | 0 <= k < |rs| && 0 <= x < |b.list|
      ensures !In(rs[k].block, b.list[x])
    {
      assert InsideSome(rs[k], l);
      var s :| Do(s) in l && Inside(rs[k], s);
      var y :| 0 <= y < |b.list| && b.list[y] == Do(s);
      BoundaryIsReach(s);
      if x <= y {
        InLine(b.list, lo, hi, x, y);
        InLine(b.list, lo, hi, y, y);
      } else {
        InLine(b.list, lo, hi, y, x);
        InLine(b.list, lo, hi, x, x);
      }
    }
  }

  // ---------- counters change no bodies ----------

  lemma {:induction false} ListBodiesConcat(a: seq<Item>, b: seq<Item>)
    ensures ListBodies(a + b) == ListBodies(a) + ListBodies(b)
  {
    hide StmtBodies;
    if a == [] {
      assert a + b == b;
    } else {
      assert (a + b)[0] == a[0] && (a + b)[1..] == a[1..] + b;
      ListBodiesConcat(a[1..], b);
    }
  }

  lemma {:induction false} AddedBodies(pos: int, blockEnd: int, list: seq<Item>, extend: bool, n: nat)
    requires list != [] && AllDo(list)
    ensures ListBodies(AddToBlocks(pos, blockEnd, list, extend, n).0) == ListBodies(list)
    decreases |list|
  {
    hide ListBodies, BasicBlock, AddToBlocks;
    var k := BasicLength(list);
    var here := BasicBlock(pos, blockEnd, list, extend);
    AddStep(pos, blockEnd, list, extend, n);
    CountHasNone(n);
    ListBodiesConcat([Count(n)], list[..k]);
    assert [] + list[..k] == list[..k];
    ListBodiesConcat(list[..k], list[k..]);
    assert list[..k] + list[k..] == list;
    if k < |list| {
      AddedBodies(Pos(list[k].stmt), blockEnd, list[k..], false, n + |here|);
      ListBodiesConcat(HeadItems(pos, blockEnd, list, extend, n),
                       AddToBlocks(Pos(list[k].stmt), blockEnd, list[k..], false, n + |here|).0);
    } else {
      assert list[..k] == list;
    }
  }

  lemma CountHasNone(n: nat)
    ensures ListBodies([Count(n)]) == {}
  {
    assert [Count(n)][1..] == [];
  }

  lemma CountedBodies(pos: int, blockEnd: int, list: seq<Item>, extend: bool, n: nat, entry: Event)
    requires AllDo(list)
    ensures ListBodies(AddCounters(pos, blockEnd, list, extend, n, entry).0) == ListBodies(list)
  {
    if list != [] {
      AddedBodies(pos, blockEnd, list, extend, n);
    } else {
      CountHasNone(n);
    }
  }

  // ---------- everything is covered ----------

  lemma SpacedParts(A: set<Body>, B: set<Body>)
    requires AllSpaced(A + B)
    ensures AllSpaced(A) && AllSpaced(B)
  {
    hide Spaced;
  }

  lemma {:induction false} BlockCovers(b: Block, n: nat, entry: Event, lo: int, hi: int)
    requires AllDo(b.list) && SourceItems(b.list) && b.lbrace < lo && PlacedList(b.list, lo, hi) && hi <= BlockEnd(b)
    requires b.lbrace < b.rbrace && AllSpaced(BlockBodies(b.lbrace, BlockEnd(b), b.list))
    ensures Covers(VisitBlock(b, n, entry).1, BlockBodies(b.lbrace, BlockEnd(b), b.list))
    decreases ListHeight(b.list), 4, 0
  {
    hide AddCounters, VisitList, PlacedList, Spaced, ListBodies, Covers, Foreign, Within, Disjoint, AllClear, AllInside,
      SourceItem;
    var body := Body(b.lbrace, BlockEnd(b), b.list, true);
    SpacedParts({body}, ListBodies(b.list));
    assert Spaced(body.list);
    ReadyToVisit(b.lbrace, BlockEnd(b), b.list, true, n, entry);
    var (items, mine) := AddCounters(b.lbrace, BlockEnd(b), b.list, true, n, entry);
    CountedPlaced(b.lbrace, BlockEnd(b), b.list, true, n, entry, lo, hi);
    CountedBlocks(b.lbrace, BlockEnd(b), b.list, true, n, entry, lo, hi);
    CountedBodies(b.lbrace, BlockEnd(b), b.list, true, n, entry);
    CountedCovers(body, lo, hi, n, entry);
    VisitListBlocks(items, n + |mine|, lo, hi);
    ListCovers(items, n + |mine|, lo, hi);
    var theirs := VisitList(items, n + |mine|).1;
    ForeignInside(mine, b.list, lo, hi);
    ForeignOutside(theirs, items, body, lo, hi);
    CoversBoth(mine, {body}, theirs, ListBodies(b.list));
  }

  lemma {:induction false} ListCovers(l: seq<Item>, n: nat, lo: int, hi: int)
    requires SourceItems(l) && PlacedList(l, lo, hi) && AllSpaced(ListBodies(l))
    ensures Covers(VisitList(l, n).1, ListBodies(l))
    decreases ListHeight(l), 2, |l|
  {
    hide VisitStmt, StmtBodies, Covers, Foreign, Lies, Within, Disjoint, AllInside, Placed, Source, Spaced, AllSpaced;
    if l == [] {
      CoversNothing();
    } else if l[0].Count? {
      assert ListBodies(l) == ListBodies(l[1..]);
      ListCovers(l[1..], n, lo, hi);
    } else {
      var s := l[0].stmt;
      assert SourceItem(l[0]) && PlacedItem(l[0], lo);
      StmtExtent(s);
      BoundaryIsReach(s);
      var A, B := StmtBodies(s), ListBodies(l[1..]);
      SpacedParts(A, B);
      StmtCovers(s, n);
      VisitStmtBlocks(s, n);
      StmtLies(s);
      var mine := VisitStmt(s, n).1;
      ListCovers(l[1..], n + |mine|, Span(s), hi);
      VisitListBlocks(l[1..], n + |mine|, Span(s), hi);
      ListLies(l[1..], Span(s), hi);
      var more := VisitList(l[1..], n + |mine|).1;
      WithinWider(mine, Reach(s), End(s), Span(s));
      LiesWider(A, Reach(s), End(s), Reach(s), Span(s));
      ForeignAfter(mine, B, Reach(s), Span(s), hi);
      ForeignBefore(more, A, Reach(s), Span(s), hi);
      CoversBoth(mine, A, more, B);
    }
  }

  lemma {:induction false} StmtCovers(s: Stmt, n: nat)
    requires Source(s) && Placed(s) && AllSpaced(StmtBodies(s))
    ensures Covers(VisitStmt(s, n).1, StmtBodies(s))
    decreases Height(s), 1, 0
  {
    hide VisitBlock, VisitElse, CountClauses, VisitClauses, Covers, Foreign, Lies, Within, Disjoint, PlacedList, Spaced,
      AllSpaced, SourceItems, SourceClauses, PlacedClauses, BlockBodies, ElseBodies, ClauseLists, ClauseBodies;
    match s
    case Basic(_, _, _) =>
      CoversNothing();
    case BlockStmt(b) =>
      assert PlacedBlock(b);
      BlockCovers(b, n, Enter(b.lbrace), b.lbrace + 1, BlockEnd(b));
    case If(pos, b, els) =>
      assert PlacedBlock(b) && PlacedElse(els, BlockEnd(b));
      var A, B := BlockBodies(b.lbrace, BlockEnd(b), b.list), ElseBodies(BlockEnd(b), els);
      SpacedParts(A, B);
      BlockCovers(b, n, Into(pos, 1), b.lbrace + 1, BlockEnd(b));
      VisitBlockBlocks(b, n, Into(pos, 1), b.lbrace + 1, BlockEnd(b));
      BlockLies(b.lbrace, BlockEnd(b), b.list, b.lbrace + 1, BlockEnd(b));
      var rs := VisitBlock(b, n, Into(pos, 1)).1;
      ElseCovers(pos, BlockEnd(b), els, n + |rs|);
      VisitElseBlocks(pos, BlockEnd(b), els, n + |rs|);
      ElseLies(BlockEnd(b), els);
      var more := VisitElse(pos, BlockEnd(b), els, n + |rs|).1;
      ForeignAfter(rs, B, b.lbrace, BlockEnd(b), ElseEnd(BlockEnd(b), els));
      ForeignBefore(more, A, b.lbrace, BlockEnd(b), ElseEnd(BlockEnd(b), els));
      CoversBoth(rs, A, more, B);
    case Loop(pos, b) =>
      assert PlacedBlock(b);
      BlockCovers(b, n, Into(pos, 1), b.lbrace + 1, BlockEnd(b));
    case Switch(_, _, _, _) =>
      SwitchCovers(s, n);
    case Labeled(_, _, inner) =>
      StmtCovers(inner, n);
  }

  lemma {:induction false} ElseCovers(pos: int, start: int, els: Else, n: nat)
    requires SourceElse(els) && PlacedElse(els, start) && AllSpaced(ElseBodies(start, els))
    ensures Covers(VisitElse(pos, start, els, n).1, ElseBodies(start, els))
    decreases ElseHeight(els), 5, 0
  {
    hide VisitBlock, Covers, SourceItems, Placed, PlacedList, StmtBodies, AllSpaced, ListBodies;
    match els
    case NoElse =>
      CoversNothing();
    case ElseIf(s) =>
      OneHeight(s);
      OneSource(s);
      StmtExtent(s);
      OnePlaced(s, start);
      OneBodies(s);
      BlockCovers(Block(start, [Do(s)], End(s)), n, Into(pos, 0), start + 1, End(s));
    case ElseBlock(b) =>
      assert PlacedBlock(b);
      PlacedWider(b.list, b.lbrace + 1, BlockEnd(b), start + 1, BlockEnd(b));
      BlockCovers(Block(start, b.list, b.rbrace), n, Into(pos, 0), start + 1, BlockEnd(b));
  }

  lemma OneBodies(s: Stmt)
    ensures ListBodies([Do(s)]) == StmtBodies(s)
  {
    assert [Do(s)][1..] == [];
  }

  // ---------- clauses ----------

  /** The counters of the clauses cover their lists, and nothing inside. */
  lemma {:induction false} CountClausesCover(pos: int, cs: seq<Clause>, k: nat, n: nat, lo: int, hi: int)
    requires SourceClauses(cs) && PlacedClauses(cs, lo, hi) && AllSpaced(ClauseLists(cs))
    ensures var rs := CountClauses(pos, cs, k, n).1; Covers(rs, ClauseLists(cs)) && Foreign(rs, ClauseBodies(cs))
    decreases |cs|
  {
    hide PlacedList, AddCounters, Within, Disjoint, AllClear, ListBodies, Covers, Foreign, Lies, Spaced;
    if cs == [] {
      CoversNothing();
    } else {
      var c, rest := cs[0], cs[1..];
      assert SourceClause(c);
      ClauseExtent(c, hi);
      var end, next := ClauseEnd(c), ClauseSpan(c);
      var b := Body(c.pos, end, c.body, false);
      SpacedParts({b}, ClauseLists(rest));
      assert Spaced(b.list);
      CountedBlocks(c.pos, end, c.body, false, n, Into(pos, k), c.colon, next);
      CountedCovers(b, c.colon, next, n, Into(pos, k));
      var rs := AddCounters(c.pos, end, c.body, false, n, Into(pos, k)).1;
      WithinWider(rs, c.pos, if c.body == [] then end else next, next);
      ForeignInside(rs, c.body, c.colon, next);
      CountClausesCover(pos, rest, k + 1, n + |rs|, next, hi);
      CountClausesBlocks(pos, rest, k + 1, n + |rs|, next, hi);
      var more := CountClauses(pos, rest, k + 1, n + |rs|).1;
      ClausesLie(rest, next, hi);
      ForeignAfter(rs, ClauseLists(rest), c.pos, next, hi);
      ForeignAfter(rs, ClauseBodies(rest), c.pos, next, hi);
      OneLies(b, c.colon, next);
      ListLies(c.body, c.colon, next);
      ForeignBefore(more, {b}, c.colon - 1, next, hi);
      ForeignBefore(more, ListBodies(c.body), c.colon, next, hi);
      CoversBoth(rs, {b}, more, ClauseLists(rest));
      ForeignBoth(rs, more, ListBodies(c.body), ClauseBodies(rest));
    }
  }

  /** What is recorded inside the clauses covers what is inside, and nothing of their lists. */
  lemma {:induction false} VisitClausesCover(pos: int, cs: seq<Clause>, k: nat, n: nat, v: nat, lo: int, hi: int)
    requires SourceClauses(cs) && PlacedClauses(cs, lo, hi) && AllSpaced(ClauseLists(cs)) && AllSpaced(ClauseBodies(cs))
    ensures var counted := CountClauses(pos, cs, k, n).0;
      VisitableClauses(counted) && Covers(VisitClauses(counted, v).1, ClauseBodies(cs)) &&
        Foreign(VisitClauses(counted, v).1, ClauseLists(cs)) && Within(VisitClauses(counted, v).1, lo, hi)
    decreases ClausesHeight(cs), 3, |cs|
  {
    hide PlacedList, AddCounters, VisitList, Within, Disjoint, AllInside, ListBodies, Covers, Foreign, Lies, Spaced,
      SourceItems;
    if cs == [] {
      CoversNothing();
      NoBlocks(lo, hi, []);
    } else {
      var c, rest := cs[0], cs[1..];
      assert SourceClause(c);
      ClauseExtent(c, hi);
      var end, next := ClauseEnd(c), ClauseSpan(c);
      var b := Body(c.pos, end, c.body, false);
      SpacedParts({b}, ClauseLists(rest));
      SpacedParts(ListBodies(c.body), ClauseBodies(rest));
      assert Spaced(b.list);
      var (items, mine) := AddCounters(c.pos, end, c.body, false, n, Into(pos, k));
      ReadyToVisit(c.pos, end, c.body, false, n, Into(pos, k));
      CountedPlaced(c.pos, end, c.body, false, n, Into(pos, k), c.colon, next);
      CountedBlocks(c.pos, end, c.body, false, n, Into(pos, k), c.colon, next);
      CountedBodies(c.pos, end, c.body, false, n, Into(pos, k));
      var counted := CountClauses(pos, rest, k + 1, n + |mine|).0;
      var first := Clause(c.pos, c.colon, items);
      assert ([first] + counted)[1..] == counted;
      ListCovers(items, v, c.colon, next);
      VisitListBlocks(items, v, c.colon, next);
      var rs := VisitList(items, v).1;
      ForeignOutside(rs, items, b, c.colon, next);
      VisitClausesCover(pos, rest, k + 1, n + |mine|, v + |rs|, next, hi);
      var more := VisitClauses(counted, v + |rs|).1;
      ClausesLie(rest, next, hi);
      ForeignAfter(rs, ClauseLists(rest), c.colon, next, hi);
      ForeignAfter(rs, ClauseBodies(rest), c.colon, next, hi);
      OneLies(b, c.colon, next);
      ListLies(c.body, c.colon, next);
      ForeignBefore(more, {b}, c.colon - 1, next, hi);
      ForeignBefore(more, ListBodies(c.body), c.colon, next, hi);
      CoversBoth(rs, ListBodies(c.body), more, ClauseBodies(rest));
      ForeignBoth(rs, more, {b}, ClauseLists(rest));
      WithinTwo(rs, more, lo, c.colon, next, hi);
    }
  }

  lemma WithinTwo(a: seq<Recorded>, b: seq<Recorded>, lo: int, start: int, mid: int, hi: int)
    requires Within(a, start, mid) && Within(b, mid, hi) && lo <= start <= mid <= hi
    ensures Within(a + b, lo, hi)
  {
  }

  lemma {:induction false} SwitchCovers(s: Stmt, n: nat)
    requires s.Switch? && Source(s) && Placed(s) && AllSpaced(StmtBodies(s))
    ensures Covers(VisitStmt(s, n).1, StmtBodies(s))
    decreases Height(s), 0, 0
  {
    hide CountClauses, VisitClauses, Covers, Foreign, AllSpaced, SourceClauses, PlacedClauses;
    var pos, cs := s.pos, s.clauses;
    if cs == [] {
      CoversNothing();
      assert VisitStmt(s, n).1 == [] && StmtBodies(s) == ClauseLists(cs) + ClauseBodies(cs) == {};
    } else {
      SpacedParts(ClauseLists(cs), ClauseBodies(cs));
      ClausesReady(pos, cs, 0, n);
      var (counted, rs) := CountClauses(pos, cs, 0, n);
      CountClausesCover(pos, cs, 0, n, s.lbrace + 1, s.rbrace + 1);
      VisitClausesCover(pos, cs, 0, n, n + |rs|, s.lbrace + 1, s.rbrace + 1);
      CoversBoth(rs, ClauseLists(cs), VisitClauses(counted, n + |rs|).1, ClauseBodies(cs));
    }
  }

  // ---------- a file ----------

  lemma {:induction false} FuncsLie(fs: seq<Block>, lo: int) returns (hi: int)
    requires SourceFuncs(fs) && PlacedFuncs(fs, lo)
    ensures lo <= hi && Lies(FuncBodies(fs), lo, hi)
    decreases |fs|
  {
    hide Lies, BlockBodies, PlacedList, SourceItems;
    hi := lo;
    if fs == [] {
      NothingLies(lo, hi);
    } else {
      var b := fs[0];
      assert PlacedBlock(b);
      hi := FuncsLie(fs[1..], BlockEnd(b));
      BlockLies(b.lbrace, BlockEnd(b), b.list, b.lbrace + 1, BlockEnd(b));
      LiesWider(BlockBodies(b.lbrace, BlockEnd(b), b.list), b.lbrace, BlockEnd(b), lo, hi);
      LiesWider(FuncBodies(fs[1..]), BlockEnd(b), hi, lo, hi);
      LiesBoth(BlockBodies(b.lbrace, BlockEnd(b), b.list), FuncBodies(fs[1..]), lo, hi);
    }
  }

  lemma {:induction false} FuncsCover(fs: seq<Block>, f: nat, n: nat, lo: int)
    requires SourceFuncs(fs) && PlacedFuncs(fs, lo) && AllSpaced(FuncBodies(fs))
    ensures Covers(VisitFuncs(fs, f, n).1, FuncBodies(fs))
    decreases |fs|
  {
    hide VisitBlock, Covers, Foreign, Lies, Within, Disjoint, BlockBodies, PlacedList, SourceItems, AllSpaced;
    if fs == [] {
      CoversNothing();
    } else {
      var b, rest := fs[0], fs[1..];
      assert PlacedBlock(b);
      var A, B := BlockBodies(b.lbrace, BlockEnd(b), b.list), FuncBodies(rest);
      SpacedParts(A, B);
      BlockCovers(b, n, Call(f), b.lbrace + 1, BlockEnd(b));
      VisitBlockBlocks(b, n, Call(f), b.lbrace + 1, BlockEnd(b));
      BlockLies(b.lbrace, BlockEnd(b), b.list, b.lbrace + 1, BlockEnd(b));
      var rs := VisitBlock(b, n, Call(f)).1;
      FuncsCover(rest, f + 1, n + |rs|, BlockEnd(b));
      FuncsBlocks(rest, f + 1, n + |rs|, BlockEnd(b));
      var more := VisitFuncs(rest, f + 1, n + |rs|).1;
      var end :| BlockEnd(b) <= end && Within(more, BlockEnd(b), end);
      var hi := FuncsLie(rest, BlockEnd(b));
      ForeignAfter(rs, B, b.lbrace, BlockEnd(b), hi);
      ForeignBefore(more, A, b.lbrace, BlockEnd(b), end);
      CoversBoth(rs, A, more, B);
    }
  }

  // ---------- what covering amounts to ----------

  /** A statement of a covered list is in exactly one block, and in none when it is bare. */
  lemma CoveredOnce(rs: seq<Recorded>, bodies: set<Body>, b: Body, x: nat)
    requires Covers(rs, bodies) && Disjoint(rs) && b in bodies && x < |b.list|
    ensures InSome(rs, b.list[x]) <==> !Bare(b, x)
    ensures forall j, k ::
      (0 <= j < |rs| && 0 <= k < |rs| && In(rs[j].block, b.list[x]) && In(rs[k].block, b.list[x])) ==> j == k
  {
    hide Pos, Reach, GoesOn, End;
    assert Covered(rs, b);
    forall k | 0 <= k < |rs| && In(rs[k].block, b.list[x])
      ensures !Bare(b, x)
    {
      assert Known(rs[k], bodies);
      var d, i: nat, j: nat :| Holds(rs[k], bodies, d, i, j);
      assert In(rs[k].block, b.list[x]) <==> b == d && i <= x < j;
      if i < x {
        assert GoesOn(b.list[x - 1].stmt);
      }
    }
    forall j, k | 0 <= j < |rs| && 0 <= k < |rs| && In(rs[j].block, b.list[x]) && In(rs[k].block, b.list[x])
      ensures j == k
    {
      NotApart(rs[j].block, rs[k].block, b.list[x]);
    }
  }

  lemma NotApart(a: CoverBlock, b: CoverBlock, item: Item)
    requires In(a, item) && In(b, item)
    ensures !Apart(a, b) && !Apart(b, a)
  {
    hide Pos, Reach;
  }

  /** Every list has a block that starts where the list does. */
  lemma ListStarts(rs: seq<Recorded>, bodies: set<Body>, b: Body)
    requires Covers(rs, bodies) && b in bodies
    ensures exists k :: 0 <= k < |rs| && rs[k].block.start == b.start && (b.list == [] ==> Empty(rs[k], b))
  {
    hide In, GoesOn, IsBasic;
    assert Covered(rs, b);
    if b.list != [] {
      assert !Bare(b, 0) && InSome(rs, b.list[0]);
      var k :| 0 <= k < |rs| && In(rs[k].block, b.list[0]);
      assert Known(rs[k], bodies);
      var d, i: nat, j: nat :| Holds(rs[k], bodies, d, i, j);
      assert d == b && i == 0;
    }
  }
}
