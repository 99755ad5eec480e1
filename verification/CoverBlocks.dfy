/** The blocks that are recorded do not overlap (the self-check of addVariables in
    cmd/cover/cover.go). */
module CoverBlocks {
  import opened CoverSyntax
  import opened CoverRuns
  import opened Counters

  // ---------- where statements are ----------

  /** Where the next statement may start. The empty statement between a label and a closing brace
      has no extent, but stands at a position of its own. */
  function Span(s: Stmt): int {
    match s
    case Basic(pos, end, _) => if pos < end then end else pos + 1
    case Labeled(_, _, inner) => Span(inner)
    case _ => End(s)
  }

  function ClauseSpan(c: Clause): int {
    if c.body != [] && c.body[|c.body| - 1].Do? then Span(c.body[|c.body| - 1].stmt) else c.colon
  }

  /** The parts of the statement follow each other in the source. A clause keeps the position just
      after its colon. */
  ghost predicate Placed(s: Stmt) {
    match s
    case Basic(pos, end, _) => pos <= end
    case BlockStmt(b) => PlacedBlock(b)
    case If(pos, b, els) => pos < b.lbrace && PlacedBlock(b) && PlacedElse(els, BlockEnd(b))
    case Loop(pos, b) => pos < b.lbrace && PlacedBlock(b)
    case Switch(pos, lbrace, cs, rbrace) => pos < lbrace < rbrace && PlacedClauses(cs, lbrace + 1, rbrace + 1)
    case Labeled(pos, _, inner) => pos < Pos(inner) && Placed(inner)
  }

  ghost predicate PlacedBlock(b: Block) {
    b.lbrace < b.rbrace && PlacedList(b.list, b.lbrace + 1, BlockEnd(b))
  }

  ghost predicate PlacedElse(els: Else, start: int) {
    match els
    case NoElse => true
    case ElseIf(s) => start < Pos(s) && Placed(s)
    case ElseBlock(b) => start <= b.lbrace && PlacedBlock(b)
  }

  ghost predicate PlacedItem(item: Item, lo: int) {
    match item
    case Do(s) => lo <= Pos(s) && Placed(s)
    case Count(_) => true
  }

  function ItemEnd(item: Item, lo: int): int {
    if item.Do? then Span(item.stmt) else lo
  }

  /** The statements of the list follow each other between lo and hi. */
  ghost predicate PlacedList(l: seq<Item>, lo: int, hi: int) {
    if l == [] then lo <= hi else PlacedItem(l[0], lo) && PlacedList(l[1..], ItemEnd(l[0], lo), hi)
  }

  ghost predicate PlacedClauses(cs: seq<Clause>, lo: int, hi: int) {
    if cs == [] then lo <= hi
    else
      && lo <= cs[0].pos < cs[0].colon && PlacedList(cs[0].body, cs[0].colon, hi)
      && PlacedClauses(cs[1..], ClauseSpan(cs[0]), hi)
  }

  lemma {:induction false} StmtExtent(s: Stmt)
    requires Placed(s)
    ensures Pos(s) <= Boundary(s) <= End(s) <= Span(s) && Pos(s) < Span(s) && (s.If? ==> Span(s) == End(s))
    decreases s
  {
    match s
    case Basic(_, _, _) =>
    case BlockStmt(b) =>
    case If(_, b, els) =>
      assert PlacedBlock(b) && PlacedElse(els, BlockEnd(b));
      if els.ElseIf? {
        StmtExtent(els.stmt);
        assert End(s) == End(els.stmt);
      } else if els.ElseBlock? {
        assert End(s) == BlockEnd(els.block) && PlacedBlock(els.block);
      }
    case Loop(_, b) =>
    case Switch(_, _, _, _) =>
    case Labeled(_, _, inner) =>
      StmtExtent(inner);
  }

  lemma {:induction false} ListExtent(l: seq<Item>, lo: int, hi: int, s: Stmt)
    requires PlacedList(l, lo, hi) && Do(s) in l
    ensures Placed(s) && lo <= Pos(s) && Span(s) <= hi
  {
    ListBounds(l, lo, hi);
    if l[0] != Do(s) {
      ListExtent(l[1..], ItemEnd(l[0], lo), hi, s);
      if l[0].Do? {
        StmtExtent(l[0].stmt);
      }
    } else {
      ListBounds(l[1..], Span(s), hi);
    }
  }

  lemma {:induction false} ListBounds(l: seq<Item>, lo: int, hi: int)
    requires PlacedList(l, lo, hi)
    ensures lo <= hi
  {
    if l != [] {
      ListBounds(l[1..], ItemEnd(l[0], lo), hi);
      if l[0].Do? {
        StmtExtent(l[0].stmt);
      }
    }
  }

  lemma {:induction false} PlacedWider(l: seq<Item>, lo: int, hi: int, lo': int, hi': int)
    requires PlacedList(l, lo, hi) && lo' <= lo && hi <= hi'
    ensures PlacedList(l, lo', hi')
  {
    if l != [] {
      var next := ItemEnd(l[0], lo);
      PlacedWider(l[1..], next, hi, if l[0].Do? then next else lo', hi');
    }
  }

  /** The last statement of a list ends it. */
  lemma {:induction false} PlacedToLast(l: seq<Item>, lo: int, hi: int)
    requires PlacedList(l, lo, hi) && l != [] && l[|l| - 1].Do?
    ensures PlacedList(l, lo, Span(l[|l| - 1].stmt)) && Span(l[|l| - 1].stmt) <= hi
  {
    ListBounds(l[1..], ItemEnd(l[0], lo), hi);
    if |l| > 1 {
      PlacedToLast(l[1..], ItemEnd(l[0], lo), hi);
    }
  }

  lemma {:induction false} PlacedSplit(l: seq<Item>, lo: int, hi: int, k: nat)
    requires PlacedList(l, lo, hi) && 0 < k <= |l| && l[k - 1].Do?
    ensures PlacedList(l[..k], lo, Span(l[k - 1].stmt)) && PlacedList(l[k..], Span(l[k - 1].stmt), hi)
  {
    assert l[..k][0] == l[0] && l[..k][1..] == l[1..][..k - 1];
    if k > 1 {
      PlacedSplit(l[1..], ItemEnd(l[0], lo), hi, k - 1);
      assert l[1..][k - 1..] == l[k..];
    } else {
      StmtExtent(l[0].stmt);
    }
  }

  lemma {:induction false} PlacedConcat(a: seq<Item>, lo: int, mid: int, b: seq<Item>, hi: int)
    requires PlacedList(a, lo, mid) && PlacedList(b, mid, hi)
    ensures PlacedList(a + b, lo, hi)
  {
    if a == [] {
      assert a + b == b;
      PlacedWider(b, mid, hi, lo, hi);
    } else {
      assert (a + b)[1..] == a[1..] + b;
      PlacedConcat(a[1..], ItemEnd(a[0], lo), mid, b, hi);
    }
  }

  /** Adding counters leaves the statements where they are. */
  lemma {:induction false} AddedPlaced(pos: int, blockEnd: int, list: seq<Item>, extend: bool, n: nat, lo: int, hi: int)
    requires list != [] && AllDo(list) && PlacedList(list, lo, hi)
    ensures PlacedList(AddToBlocks(pos, blockEnd, list, extend, n).0, lo, hi)
    decreases |list|
  {
    hide PlacedList, BasicBlock, AddToBlocks;
    var k := BasicLength(list);
    var here := BasicBlock(pos, blockEnd, list, extend);
    var mid := Span(list[k - 1].stmt);
    AddStep(pos, blockEnd, list, extend, n);
    PlacedSplit(list, lo, hi, k);
    assert [] + list[..k] == list[..k];
    CountFirst(n, list[..k], lo, mid);
    var head := HeadItems(pos, blockEnd, list, extend, n);
    if k < |list| {
      AddedPlaced(Pos(list[k].stmt), blockEnd, list[k..], false, n + |here|, mid, hi);
      PlacedConcat(head, lo, mid, AddToBlocks(Pos(list[k].stmt), blockEnd, list[k..], false, n + |here|).0, hi);
    } else {
      ListBounds(list[k..], mid, hi);
      PlacedWider(head, lo, mid, lo, hi);
    }
  }

  lemma CountFirst(n: nat, l: seq<Item>, lo: int, hi: int)
    requires PlacedList(l, lo, hi)
    ensures PlacedList([Count(n)] + l, lo, hi)
  {
    assert ([Count(n)] + l)[1..] == l;
  }

  lemma CountedPlaced(pos: int, blockEnd: int, list: seq<Item>, extend: bool, n: nat, entry: Event, lo: int, hi: int)
    requires AllDo(list) && PlacedList(list, lo, hi)
    ensures PlacedList(AddCounters(pos, blockEnd, list, extend, n, entry).0, lo, hi)
  {
    if list != [] {
      AddedPlaced(pos, blockEnd, list, extend, n, lo, hi);
    } else {
      CountFirst(n, [], lo, hi);
      assert [Count(n)] + [] == [Count(n)];
    }
  }

  /** The statements of a list with counters are those of the list. */
  lemma {:induction false} AddedMembers(pos: int, blockEnd: int, list: seq<Item>, extend: bool, n: nat, s: Stmt)
    requires list != [] && AllDo(list)
    ensures Do(s) in AddToBlocks(pos, blockEnd, list, extend, n).0 <==> Do(s) in list
    decreases |list|
  {
    hide BasicBlock, AddToBlocks;
    var k := BasicLength(list);
    AddStep(pos, blockEnd, list, extend, n);
    assert list == list[..k] + list[k..];
    if k < |list| {
      AddedMembers(Pos(list[k].stmt), blockEnd, list[k..], false, n + |BasicBlock(pos, blockEnd, list, extend)|, s);
    }
  }

  // ---------- the blocks do not overlap ----------

  ghost predicate Within(rs: seq<Recorded>, lo: int, hi: int) {
    forall i :: 0 <= i < |rs| ==> lo <= rs[i].block.start < rs[i].block.end <= hi
  }

  predicate Apart(x: CoverBlock, y: CoverBlock) {
    x.end <= y.start || y.end <= x.start
  }

  ghost predicate Disjoint(rs: seq<Recorded>) {
    forall i, j :: 0 <= i < j < |rs| ==> Apart(rs[i].block, rs[j].block)
  }

  /** The block r leaves room for what is inside s. */
  predicate ClearOf(r: Recorded, s: Stmt) {
    Boundary(s) == End(s) || r.block.end <= Boundary(s) || End(s) <= r.block.start
  }

  predicate Inside(r: Recorded, s: Stmt) {
    Boundary(s) <= r.block.start < r.block.end <= End(s)
  }

  ghost predicate AllClear(rs: seq<Recorded>, l: seq<Item>) {
    forall i, s :: 0 <= i < |rs| && Do(s) in l ==> ClearOf(rs[i], s)
  }

  ghost predicate InsideSome(r: Recorded, l: seq<Item>) {
    exists s :: Do(s) in l && Inside(r, s)
  }

  ghost predicate AllInside(rs: seq<Recorded>, l: seq<Item>) {
    forall i :: 0 <= i < |rs| ==> InsideSome(rs[i], l)
  }

  lemma DisjointConcat(a: seq<Recorded>, b: seq<Recorded>)
    requires Disjoint(a) && Disjoint(b)
    requires forall i, j :: 0 <= i < |a| && 0 <= j < |b| ==> Apart(a[i].block, b[j].block)
    ensures Disjoint(a + b)
  {
    forall i, j | 0 <= i < j < |a + b|
      ensures Apart((a + b)[i].block, (a + b)[j].block)
    {
      if i < |a| <= j {
        assert Apart(a[i].block, b[j - |a|].block);
      }
    }
  }

  /** Blocks before and after a position. */
  lemma SplitAt(a: seq<Recorded>, b: seq<Recorded>, lo: int, mid: int, hi: int)
    requires Within(a, lo, mid) && Within(b, mid, hi) && Disjoint(a) && Disjoint(b) && lo <= mid <= hi
    ensures Within(a + b, lo, hi) && Disjoint(a + b)
  {
    DisjointConcat(a, b);
  }

  /** Blocks that leave room for the statements, and blocks inside them. */
  lemma OuterInner(a: seq<Recorded>, b: seq<Recorded>, l: seq<Item>)
    requires AllClear(a, l) && AllInside(b, l) && Disjoint(a) && Disjoint(b)
    ensures Disjoint(a + b)
  {
    forall i, j | 0 <= i < |a| && 0 <= j < |b|
      ensures Apart(a[i].block, b[j].block)
    {
      assert InsideSome(b[j], l);
      var s :| Do(s) in l && Inside(b[j], s);
      assert ClearOf(a[i], s);
    }
    DisjointConcat(a, b);
  }

  /** The blocks that addCounters records for a list placed between lo and hi. */
  lemma {:induction false} AddedBlocks(pos: int, blockEnd: int, list: seq<Item>, extend: bool, n: nat, hi: int)
    requires list != [] && AllDo(list) && PlacedList(list, Pos(list[0].stmt), hi) && pos <= Pos(list[0].stmt)
    requires extend ==> hi <= blockEnd
    ensures var rs := AddToBlocks(pos, blockEnd, list, extend, n).1;
      Within(rs, pos, if extend && !EndsBasicBlock(list[0].stmt) then blockEnd else hi) && Disjoint(rs) &&
        AllClear(rs, list)
    decreases |list|
  {
    hide PlacedList, AddToBlocks, BasicBlock, AllClear, Within;
    var k := BasicLength(list);
    var here := BasicBlock(pos, blockEnd, list, extend);
    var lo := Pos(list[0].stmt);
    var mid := Span(list[k - 1].stmt);
    AddStep(pos, blockEnd, list, extend, n);
    PlacedSplit(list, lo, hi, k);
    HeadBlock(pos, blockEnd, list, extend, hi);
    if k < |list| {
      var next := Pos(list[k].stmt);
      PlacedFirst(list[k..], mid, hi);
      AddedBlocks(next, blockEnd, list[k..], false, n + |here|, hi);
      var more := AddToBlocks(next, blockEnd, list[k..], false, n + |here|).1;
      ListBounds(list[k..], next, hi);
      ListBounds(list[..k], lo, mid);
      WithinWider(here, pos, mid, next);
      SplitAt(here, more, pos, next, hi);
      ClearBoth(here, more, list, k, pos, lo, mid, next, hi);
      if extend {
        WithinWider(here + more, pos, hi, blockEnd);
      }
    } else {
      assert list[..k] == list;
    }
  }

  lemma WithinWider(rs: seq<Recorded>, lo: int, hi: int, hi': int)
    requires Within(rs, lo, hi) && hi <= hi'
    ensures Within(rs, lo, hi')
  {
  }

  lemma PlacedFirst(l: seq<Item>, lo: int, hi: int)
    requires l != [] && l[0].Do? && PlacedList(l, lo, hi)
    ensures lo <= Pos(l[0].stmt) && PlacedList(l, Pos(l[0].stmt), hi)
  {
  }

  /** The first recorded block leaves room for what is inside the statements it covers. */
  lemma HeadBlock(pos: int, blockEnd: int, list: seq<Item>, extend: bool, hi: int)
    requires list != [] && AllDo(list) && PlacedList(list, Pos(list[0].stmt), hi) && pos <= Pos(list[0].stmt)
    requires extend ==> hi <= blockEnd
    ensures var rs, k := BasicBlock(pos, blockEnd, list, extend), BasicLength(list);
      && Disjoint(rs) && AllClear(rs, list[..k])
      && (k < |list| || !extend || EndsBasicBlock(list[0].stmt) ==> Within(rs, pos, Span(list[k - 1].stmt)))
      && Within(rs, pos, if k == |list| && extend && !EndsBasicBlock(list[0].stmt) then blockEnd else hi)
  {
    var rs, k := BasicBlock(pos, blockEnd, list, extend), BasicLength(list);
    var last := list[k - 1].stmt;
    PlacedSplit(list, Pos(list[0].stmt), hi, k);
    ListBounds(list[k..], Span(last), hi);
    forall i | 0 <= i < k
      ensures Placed(list[i].stmt) && pos <= Pos(list[i].stmt) && Span(list[i].stmt) <= Span(last)
    {
      assert list[..k][i] == Do(list[i].stmt);
      ListExtent(list[..k], Pos(list[0].stmt), Span(last), list[i].stmt);
      StmtExtent(list[i].stmt);
    }
    assert list[..k][k - 1] == Do(last);
    StmtExtent(last);
    forall s | Do(s) in list[..k]
      ensures EndsBasicBlock(s) ==> s == last
      ensures !EndsBasicBlock(s) ==> Boundary(s) == End(s)
    {
      var i :| 0 <= i < k && list[..k][i] == Do(s);
      SimpleBoundary(s);
    }
  }

  lemma {:induction false} SimpleBoundary(s: Stmt)
    ensures !EndsBasicBlock(s) ==> Boundary(s) == End(s)
    decreases s
  {
    if s.Labeled? {
      SimpleBoundary(s.stmt);
    }
  }

  lemma ClearBoth(here: seq<Recorded>, more: seq<Recorded>, list: seq<Item>, k: nat, lo': int, lo: int, mid: int,
                  next: int, hi: int)
    requires 0 < k < |list| && AllDo(list) && PlacedList(list[..k], lo, mid) && PlacedList(list[k..], next, hi)
    requires mid <= next
    requires AllClear(here, list[..k]) && AllClear(more, list[k..])
    requires Within(here, lo', next) && Within(more, next, hi)
    ensures AllClear(here + more, list)
  {
    hide PlacedList;
    var rs := here + more;
    forall i, s | 0 <= i < |rs| && Do(s) in list
      ensures ClearOf(rs[i], s)
    {
      assert list == list[..k] + list[k..];
      if Do(s) in list[..k] {
        ListExtent(list[..k], lo, mid, s);
        StmtExtent(s);
      } else {
        ListExtent(list[k..], next, hi, s);
        StmtExtent(s);
      }
    }
  }

  /** The blocks of addCounters, for any list. */
  lemma CountedBlocks(pos: int, blockEnd: int, list: seq<Item>, extend: bool, n: nat, entry: Event, lo: int, hi: int)
    requires AllDo(list) && PlacedList(list, lo, hi) && pos < lo
    requires (extend ==> hi <= blockEnd) && (list == [] ==> pos < blockEnd)
    ensures var (items, rs) := AddCounters(pos, blockEnd, list, extend, n, entry);
      && Within(rs, pos, if list == [] || (extend && !EndsBasicBlock(list[0].stmt)) then blockEnd else hi)
      && Disjoint(rs) && AllClear(rs, list) && forall s :: Do(s) in items <==> Do(s) in list
  {
    hide PlacedList, AddToBlocks, AllClear, Within;
    ListBounds(list, lo, hi);
    if list != [] {
      PlacedFirst(list, lo, hi);
      AddedBlocks(pos, blockEnd, list, extend, n, hi);
      forall s
        ensures Do(s) in AddToBlocks(pos, blockEnd, list, extend, n).0 <==> Do(s) in list
      {
        AddedMembers(pos, blockEnd, list, extend, n, s);
      }
    } else {
      OneBlock(pos, blockEnd, entry);
    }
  }

  lemma OneBlock(pos: int, blockEnd: int, entry: Event)
    requires pos < blockEnd
    ensures var rs := [Recorded(CoverBlock(pos, blockEnd, 0), entry)]; Within(rs, pos, blockEnd) && AllClear(rs, [])
  {
  }

  lemma {:induction false} VisitBlockBlocks(b: Block, n: nat, entry: Event, lo: int, hi: int)
    requires AllDo(b.list) && SourceItems(b.list) && b.lbrace < lo && PlacedList(b.list, lo, hi) && hi <= BlockEnd(b)
    requires b.lbrace < b.rbrace
    ensures var rs := VisitBlock(b, n, entry).1;
      && Disjoint(rs) && Within(rs, b.lbrace, BlockEnd(b))
      && (b.list != [] && EndsBasicBlock(b.list[0].stmt) ==> Within(rs, b.lbrace, hi))
    decreases ListHeight(b.list), 4, 0
  {
    hide AddCounters, VisitList, PlacedList, Disjoint, Within, SourceItem, AllClear, AllInside;
    ReadyToVisit(b.lbrace, BlockEnd(b), b.list, true, n, entry);
    var (items, mine) := AddCounters(b.lbrace, BlockEnd(b), b.list, true, n, entry);
    CountedPlaced(b.lbrace, BlockEnd(b), b.list, true, n, entry, lo, hi);
    CountedBlocks(b.lbrace, BlockEnd(b), b.list, true, n, entry, lo, hi);
    VisitListBlocks(items, n + |mine|, lo, hi);
    var theirs := VisitList(items, n + |mine|).1;
    ClearSame(mine, b.list, items);
    OuterInner(mine, theirs, items);
    WithinBoth(mine, theirs, b.lbrace, lo, hi, BlockEnd(b));
    if b.list != [] && EndsBasicBlock(b.list[0].stmt) {
      WithinBoth(mine, theirs, b.lbrace, lo, hi, hi);
      WithinWider(mine, b.lbrace, hi, BlockEnd(b));
    }
  }

  lemma ClearSame(rs: seq<Recorded>, l: seq<Item>, m: seq<Item>)
    requires AllClear(rs, l) && forall s :: Do(s) in m <==> Do(s) in l
    ensures AllClear(rs, m)
  {
  }

  lemma WithinBoth(a: seq<Recorded>, b: seq<Recorded>, lo: int, lo': int, hi': int, hi: int)
    requires Within(b, lo', hi') && lo <= lo' && hi' <= hi
    ensures Within(a, lo, hi) ==> Within(a + b, lo, hi)
  {
  }

  lemma {:induction false} VisitListBlocks(l: seq<Item>, n: nat, lo: int, hi: int)
    requires SourceItems(l) && PlacedList(l, lo, hi)
    ensures var rs := VisitList(l, n).1; Within(rs, lo, hi) && Disjoint(rs) && AllInside(rs, l)
    decreases ListHeight(l), 2, |l|
  {
    hide VisitStmt, Disjoint, Within, Placed, Source, AllInside;
    ListBounds(l, lo, hi);
    if l == [] {
      NoBlocks(lo, hi, l);
    } else if l[0].Count? {
      VisitListBlocks(l[1..], n, lo, hi);
      InsideLonger(VisitList(l[1..], n).1, l[1..], l);
    } else {
      var s := l[0].stmt;
      assert SourceItem(l[0]) && PlacedItem(l[0], lo);
      StmtExtent(s);
      VisitStmtBlocks(s, n);
      var mine := VisitStmt(s, n).1;
      VisitListBlocks(l[1..], n + |mine|, Span(s), hi);
      var more := VisitList(l[1..], n + |mine|).1;
      ListBounds(l[1..], Span(s), hi);
      InsideLonger(more, l[1..], l);
      InsideHead(mine, s, l);
      AllInsideConcat(mine, more, l);
      WithinTighter(mine, lo, Boundary(s), End(s));
      WithinWider(mine, lo, End(s), Span(s));
      SplitAt(mine, more, lo, Span(s), hi);
    }
  }

  lemma NoBlocks(lo: int, hi: int, l: seq<Item>)
    ensures Within([], lo, hi) && Disjoint([]) && AllInside([], l)
  {
  }

  lemma InsideLonger(rs: seq<Recorded>, l: seq<Item>, m: seq<Item>)
    requires AllInside(rs, l) && forall item :: item in l ==> item in m
    ensures AllInside(rs, m)
  {
    forall i | 0 <= i < |rs|
      ensures InsideSome(rs[i], m)
    {
      assert InsideSome(rs[i], l);
      var s :| Do(s) in l && Inside(rs[i], s);
      assert Do(s) in m;
    }
  }

  lemma InsideHead(rs: seq<Recorded>, s: Stmt, l: seq<Item>)
    requires Within(rs, Boundary(s), End(s)) && Do(s) in l
    ensures AllInside(rs, l)
  {
    forall i | 0 <= i < |rs|
      ensures InsideSome(rs[i], l)
    {
      assert Do(s) in l && Inside(rs[i], s);
    }
  }

  lemma AllInsideConcat(a: seq<Recorded>, b: seq<Recorded>, l: seq<Item>)
    requires AllInside(a, l) && AllInside(b, l)
    ensures AllInside(a + b, l)
  {
  }

  lemma WithinTighter(rs: seq<Recorded>, lo: int, mid: int, hi: int)
    requires Within(rs, mid, hi) && lo <= mid
    ensures Within(rs, lo, hi)
  {
  }

  /** The blocks inside a statement lie behind its boundary. */
  lemma {:induction false} VisitStmtBlocks(s: Stmt, n: nat)
    requires Source(s) && Placed(s)
    ensures var rs := VisitStmt(s, n).1; Within(rs, Boundary(s), End(s)) && Disjoint(rs)
    decreases Height(s), 1, 0
  {
    hide VisitBlock, VisitElse, CountClauses, VisitClauses, Disjoint, Within, PlacedList, SourceItems;
    StmtExtent(s);
    match s
    case Basic(_, _, _) =>
      NoBlocks(Boundary(s), End(s), []);
    case BlockStmt(b) =>
      assert PlacedBlock(b);
      VisitBlockBlocks(b, n, Enter(b.lbrace), b.lbrace + 1, BlockEnd(b));
    case If(pos, b, els) =>
      assert PlacedBlock(b) && PlacedElse(els, BlockEnd(b));
      VisitBlockBlocks(b, n, Into(pos, 1), b.lbrace + 1, BlockEnd(b));
      var rs := VisitBlock(b, n, Into(pos, 1)).1;
      VisitElseBlocks(pos, BlockEnd(b), els, n + |rs|);
      var more := VisitElse(pos, BlockEnd(b), els, n + |rs|).1;
      assert End(s) == ElseEnd(BlockEnd(b), els);
      ElseExtent(BlockEnd(b), els);
      SplitAt(rs, more, b.lbrace, BlockEnd(b), End(s));
    case Loop(pos, b) =>
      assert PlacedBlock(b);
      VisitBlockBlocks(b, n, Into(pos, 1), b.lbrace + 1, BlockEnd(b));
    case Switch(pos, lbrace, cs, rbrace) =>
      SwitchBlocks(s, n);
    case Labeled(_, _, inner) =>
      VisitStmtBlocks(inner, n);
  }

  function ElseEnd(start: int, els: Else): int {
    match els
    case NoElse => start
    case ElseIf(s) => End(s)
    case ElseBlock(b) => BlockEnd(b)
  }

  lemma ElseExtent(start: int, els: Else)
    requires PlacedElse(els, start)
    ensures start <= ElseEnd(start, els)
  {
    if els.ElseIf? {
      StmtExtent(els.stmt);
    } else if els.ElseBlock? {
      assert PlacedBlock(els.block);
    }
  }

  lemma {:induction false} VisitElseBlocks(pos: int, start: int, els: Else, n: nat)
    requires SourceElse(els) && PlacedElse(els, start)
    ensures var rs := VisitElse(pos, start, els, n).1; Within(rs, start, ElseEnd(start, els)) && Disjoint(rs)
    decreases ElseHeight(els), 5, 0
  {
    hide VisitBlock, Disjoint, Within, SourceItems, Placed;
    match els
    case NoElse =>
      NoBlocks(start, start, []);
    case ElseIf(s) =>
      OneHeight(s);
      OneSource(s);
      StmtExtent(s);
      OnePlaced(s, start);
      VisitBlockBlocks(Block(start, [Do(s)], End(s)), n, Into(pos, 0), start + 1, End(s));
    case ElseBlock(b) =>
      assert PlacedBlock(b);
      PlacedWider(b.list, b.lbrace + 1, BlockEnd(b), start + 1, BlockEnd(b));
      VisitBlockBlocks(Block(start, b.list, b.rbrace), n, Into(pos, 0), start + 1, BlockEnd(b));
  }

  lemma OnePlaced(s: Stmt, start: int)
    requires Placed(s) && start < Pos(s)
    ensures PlacedList([Do(s)], start + 1, Span(s))
  {
    var l := [Do(s)];
    assert l[1..] == [] && PlacedItem(l[0], start + 1) && PlacedList([], Span(s), Span(s));
  }

  // ---------- clauses ----------

  ghost predicate ClausesClear(rs: seq<Recorded>, cs: seq<Clause>) {
    forall c :: c in cs ==> AllClear(rs, c.body)
  }

  ghost predicate InsideClauses(r: Recorded, cs: seq<Clause>) {
    exists c :: c in cs && InsideSome(r, c.body)
  }

  /** The body of a clause ends with a statement, or holds none. */
  ghost predicate EndsWell(c: Clause) {
    c.body != [] && c.body[|c.body| - 1].Count? ==> |c.body| == 1
  }

  lemma ClauseExtent(c: Clause, hi: int)
    requires PlacedList(c.body, c.colon, hi) && EndsWell(c)
    ensures PlacedList(c.body, c.colon, ClauseSpan(c)) && c.colon <= ClauseEnd(c) <= ClauseSpan(c) <= hi
  {
    ListBounds(c.body, c.colon, hi);
    if c.body != [] {
      if c.body[|c.body| - 1].Do? {
        PlacedToLast(c.body, c.colon, hi);
        ListExtent(c.body, c.colon, hi, c.body[|c.body| - 1].stmt);
        StmtExtent(c.body[|c.body| - 1].stmt);
      } else {
        assert c.body[1..] == [];
      }
    }
    ListBounds(c.body, c.colon, ClauseSpan(c));
  }

  lemma {:induction false} AddedLast(pos: int, blockEnd: int, list: seq<Item>, extend: bool, n: nat)
    requires list != [] && AllDo(list)
    ensures var items := AddToBlocks(pos, blockEnd, list, extend, n).0;
      items != [] && items[|items| - 1] == list[|list| - 1]
    decreases |list|
  {
    hide AddToBlocks, BasicBlock;
    var k := BasicLength(list);
    AddStep(pos, blockEnd, list, extend, n);
    if k < |list| {
      AddedLast(Pos(list[k].stmt), blockEnd, list[k..], false, n + |BasicBlock(pos, blockEnd, list, extend)|);
    }
  }

  /** What the counters of the clauses cs and the clauses with counters look like. */
  ghost predicate ClausesCounted(cs: seq<Clause>, counted: seq<Clause>, rs: seq<Recorded>, lo: int, hi: int) {
    && Within(rs, lo, hi) && Disjoint(rs) && ClausesClear(rs, counted)
    && PlacedClauses(counted, lo, hi) && forall c :: c in counted ==> EndsWell(c)
  }

  lemma {:induction false} CountClausesBlocks(pos: int, cs: seq<Clause>, k: nat, n: nat, lo: int, hi: int)
    requires SourceClauses(cs) && PlacedClauses(cs, lo, hi)
    ensures var (counted, rs) := CountClauses(pos, cs, k, n); ClausesCounted(cs, counted, rs, lo, hi)
    decreases |cs|
  {
    hide PlacedList, AddCounters, Within, Disjoint, ClausesClear, AllClear;
    if cs == [] {
      NoBlocks(lo, hi, []);
      assert ClausesClear([], []) by {
        NoClauses();
      }
    } else {
      var c := cs[0];
      assert SourceClause(c);
      ClauseExtent(c, hi);
      var end, next := ClauseEnd(c), ClauseSpan(c);
      CountedBlocks(c.pos, end, c.body, false, n, Into(pos, k), c.colon, next);
      CountedPlaced(c.pos, end, c.body, false, n, Into(pos, k), c.colon, hi);
      var (items, rs) := AddCounters(c.pos, end, c.body, false, n, Into(pos, k));
      var c' := Clause(c.pos, c.colon, items);
      CountedEnd(c.pos, end, c, n, Into(pos, k), items);
      CountClausesBlocks(pos, cs[1..], k + 1, n + |rs|, next, hi);
      var (rest, more) := CountClauses(pos, cs[1..], k + 1, n + |rs|);
      assert ([c'] + rest)[1..] == rest;
      ClauseBounds(rest, next, hi);
      WithinWider(rs, c.pos, if c.body == [] then end else next, next);
      WithinTighter(rs, lo, c.pos, next);
      SplitAt(rs, more, lo, next, hi);
      ClearSame(rs, c.body, items);
      ClausesClearBoth(rs, more, c', rest, lo, hi);
    }
  }

  lemma NoClauses()
    ensures ClausesClear([], [])
  {
  }

  lemma {:induction false} ClauseBounds(cs: seq<Clause>, lo: int, hi: int)
    requires PlacedClauses(cs, lo, hi) && forall c :: c in cs ==> EndsWell(c)
    ensures lo <= hi
  {
    if cs != [] {
      assert cs[0] in cs;
      ClauseExtent(cs[0], hi);
      ClauseBounds(cs[1..], ClauseSpan(cs[0]), hi);
    }
  }

  lemma CountedEnd(pos: int, blockEnd: int, c: Clause, n: nat, entry: Event, items: seq<Item>)
    requires AllDo(c.body) && items == AddCounters(pos, blockEnd, c.body, false, n, entry).0
    ensures var c' := Clause(c.pos, c.colon, items);
      ClauseEnd(c') == ClauseEnd(c) && ClauseSpan(c') == ClauseSpan(c) && EndsWell(c')
  {
    if c.body != [] {
      AddedLast(pos, blockEnd, c.body, false, n);
    }
  }

  lemma {:induction false} ClauseMember(cs: seq<Clause>, lo: int, hi: int, c: Clause)
    requires PlacedClauses(cs, lo, hi) && c in cs && forall c :: c in cs ==> EndsWell(c)
    ensures lo <= c.pos && PlacedList(c.body, c.colon, hi) && c.pos < c.colon
  {
    if cs[0] != c {
      assert cs[0] in cs;
      ClauseExtent(cs[0], hi);
      ClauseMember(cs[1..], ClauseSpan(cs[0]), hi, c);
    }
  }

  lemma ClausesClearBoth(rs: seq<Recorded>, more: seq<Recorded>, c: Clause, rest: seq<Clause>, lo: int, hi: int)
    requires EndsWell(c) && PlacedList(c.body, c.colon, hi) && PlacedClauses(rest, ClauseSpan(c), hi)
    requires forall d :: d in rest ==> EndsWell(d)
    requires Within(rs, lo, ClauseSpan(c)) && AllClear(rs, c.body)
    requires Within(more, ClauseSpan(c), hi) && ClausesClear(more, rest)
    ensures ClausesClear(rs + more, [c] + rest)
  {
    hide PlacedList;
    var all := rs + more;
    forall d, i, s | d in [c] + rest && 0 <= i < |all| && Do(s) in d.body
      ensures ClearOf(all[i], s)
    {
      if d in rest {
        ClauseMember(rest, ClauseSpan(c), hi, d);
        ListExtent(d.body, d.colon, hi, s);
        StmtExtent(s);
        assert i >= |rs| ==> AllClear(more, d.body) && all[i] == more[i - |rs|];
      } else {
        ClauseExtent(c, hi);
        ListExtent(c.body, c.colon, ClauseSpan(c), s);
        StmtExtent(s);
      }
    }
  }

  lemma {:induction false} VisitClausesBlocks(cs: seq<Clause>, n: nat, lo: int, hi: int)
    requires VisitableClauses(cs) && PlacedClauses(cs, lo, hi) && forall c :: c in cs ==> EndsWell(c)
    ensures var rs := VisitClauses(cs, n).1;
      Within(rs, lo, hi) && Disjoint(rs) && forall i :: 0 <= i < |rs| ==> InsideClauses(rs[i], cs)
    decreases ClausesHeight(cs), 3, |cs|
  {
    hide VisitList, PlacedList, Within, Disjoint, SourceItems, AllInside;
    if cs == [] {
      NoBlocks(lo, hi, []);
    } else {
      var c := cs[0];
      assert c in cs;
      ClauseExtent(c, hi);
      VisitListBlocks(c.body, n, c.colon, ClauseSpan(c));
      var rs := VisitList(c.body, n).1;
      VisitClausesBlocks(cs[1..], n + |rs|, ClauseSpan(c), hi);
      var more := VisitClauses(cs[1..], n + |rs|).1;
      ClauseBounds(cs[1..], ClauseSpan(c), hi);
      WithinTighter(rs, lo, c.colon, ClauseSpan(c));
      SplitAt(rs, more, lo, ClauseSpan(c), hi);
      InsideThese(rs, more, c, cs);
    }
  }

  lemma InsideThese(rs: seq<Recorded>, more: seq<Recorded>, c: Clause, cs: seq<Clause>)
    requires cs != [] && cs[0] == c && AllInside(rs, c.body)
    requires forall i :: 0 <= i < |more| ==> InsideClauses(more[i], cs[1..])
    ensures forall i :: 0 <= i < |rs + more| ==> InsideClauses((rs + more)[i], cs)
  {
    forall i | 0 <= i < |rs + more|
      ensures InsideClauses((rs + more)[i], cs)
    {
      if i < |rs| {
        assert c in cs && InsideSome(rs[i], c.body);
      } else {
        assert InsideClauses(more[i - |rs|], cs[1..]);
        var d :| d in cs[1..] && InsideSome(more[i - |rs|], d.body);
        assert d in cs;
      }
    }
  }

  lemma {:induction false} SwitchBlocks(s: Stmt, n: nat)
    requires s.Switch? && Source(s) && Placed(s)
    ensures var rs := VisitStmt(s, n).1; Within(rs, Boundary(s), End(s)) && Disjoint(rs)
    decreases Height(s), 0, 0
  {
    hide CountClauses, VisitClauses, Disjoint, Within, SourceClauses, PlacedClauses;
    var pos, cs := s.pos, s.clauses;
    if cs == [] {
      NoBlocks(Boundary(s), End(s), []);
    } else {
      ClausesReady(pos, cs, 0, n);
      var (counted, rs) := CountClauses(pos, cs, 0, n);
      CountClausesBlocks(pos, cs, 0, n, s.lbrace + 1, s.rbrace + 1);
      VisitClausesBlocks(counted, n + |rs|, s.lbrace + 1, s.rbrace + 1);
      var more := VisitClauses(counted, n + |rs|).1;
      OuterClauses(rs, more, counted);
      WithinBoth(rs, more, s.lbrace, s.lbrace + 1, s.rbrace + 1, s.rbrace + 1);
      WithinTighter(rs, s.lbrace, s.lbrace + 1, s.rbrace + 1);
    }
  }

  lemma OuterClauses(a: seq<Recorded>, b: seq<Recorded>, cs: seq<Clause>)
    requires ClausesClear(a, cs) && Disjoint(a) && Disjoint(b)
    requires forall i :: 0 <= i < |b| ==> InsideClauses(b[i], cs)
    ensures Disjoint(a + b)
  {
    forall i, j | 0 <= i < |a| && 0 <= j < |b|
      ensures Apart(a[i].block, b[j].block)
    {
      assert InsideClauses(b[j], cs);
      var c :| c in cs && InsideSome(b[j], c.body);
      var s :| Do(s) in c.body && Inside(b[j], s);
      assert AllClear(a, c.body) && ClearOf(a[i], s);
    }
    DisjointConcat(a, b);
  }

  // ---------- functions ----------

  /** The bodies of a file follow each other. */
  ghost predicate PlacedFuncs(fs: seq<Block>, lo: int) {
    fs == [] || (lo <= fs[0].lbrace && PlacedBlock(fs[0]) && PlacedFuncs(fs[1..], BlockEnd(fs[0])))
  }

  /** No two recorded blocks of a file overlap, and none is empty. */
  lemma {:induction false} FuncsBlocks(fs: seq<Block>, f: nat, n: nat, lo: int)
    requires SourceFuncs(fs) && PlacedFuncs(fs, lo)
    ensures var rs := VisitFuncs(fs, f, n).1; Disjoint(rs) && exists hi :: lo <= hi && Within(rs, lo, hi)
    decreases |fs|
  {
    hide VisitBlock, Disjoint, Within, PlacedList;
    if fs == [] {
      NoBlocks(lo, lo, []);
      assert lo <= lo;
    } else {
      assert PlacedBlock(fs[0]);
      VisitBlockBlocks(fs[0], n, Call(f), fs[0].lbrace + 1, BlockEnd(fs[0]));
      var rs := VisitBlock(fs[0], n, Call(f)).1;
      FuncsBlocks(fs[1..], f + 1, n + |rs|, BlockEnd(fs[0]));
      var more := VisitFuncs(fs[1..], f + 1, n + |rs|).1;
      var hi :| BlockEnd(fs[0]) <= hi && Within(more, BlockEnd(fs[0]), hi);
      WithinTighter(rs, lo, fs[0].lbrace, BlockEnd(fs[0]));
      SplitAt(rs, more, lo, BlockEnd(fs[0]), hi);
    }
  }
}
