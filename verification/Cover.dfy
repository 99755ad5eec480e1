/** Adding counters (File.Visit, addCounters and newCounter in cmd/cover/cover.go). */
module Counters {
  import opened CoverSyntax
  import opened CoverRuns

  /** A recorded block: positions [start, end) and the number of its statements. */
  datatype CoverBlock = CoverBlock(start: int, end: int, numStmt: nat)

  /** A recorded block with the event its counter counts: the beginning of its first statement, or
      the entry into a body without statements. */
  datatype Recorded = Recorded(block: CoverBlock, first: Event)

  // ---------- the rewriting ----------

  predicate AllDo(l: seq<Item>) {
    forall i :: 0 <= i < |l| ==> l[i].Do?
  }

  /** statementBoundary: where the basic block that s belongs to ends in the source. */
  function Boundary(s: Stmt): int {
    match s
    case Basic(_, end, _) => end
    case BlockStmt(b) => b.lbrace
    case If(_, b, _) => b.lbrace
    case Loop(_, b) => b.lbrace
    case Switch(_, lbrace, _, _) => lbrace
    case Labeled(_, _, inner) => Boundary(inner)
  }

  /** endsBasicSourceBlock */
  predicate EndsBasicBlock(s: Stmt) {
    match s
    case Basic(_, _, action) => action.Branch? || action.PanicCall?
    case Labeled(_, _, inner) => EndsBasicBlock(inner)
    case _ => true
  }

  /** The number of statements up to the first that ends the basic block. */
  function BasicLength(list: seq<Item>): (k: nat)
    requires list != [] && AllDo(list)
    ensures 0 < k <= |list|
    ensures forall i :: 0 <= i < k - 1 ==> !EndsBasicBlock(list[i].stmt)
    ensures k < |list| ==> EndsBasicBlock(list[k - 1].stmt)
  {
    if EndsBasicBlock(list[0].stmt) || |list| == 1 then 1 else 1 + BasicLength(list[1..])
  }

  /** The basic block at the head of the list, as the loop of addCounters records it; n is the
      number of the next counter. */
  function BasicBlock(pos: int, blockEnd: int, list: seq<Item>, extend: bool): (r: seq<Recorded>)
    requires list != [] && AllDo(list)
    ensures |r| <= 1
  {
    var k := BasicLength(list);
    var last := list[k - 1].stmt;
    var end := if extend && !EndsBasicBlock(last) then blockEnd else Boundary(last);
    if pos != end then [Recorded(CoverBlock(pos, end, k), Enter(Pos(list[0].stmt)))] else []
  }

  /** What the loop of addCounters does with a list that is not empty. */
  function AddToBlocks(pos: int, blockEnd: int, list: seq<Item>, extend: bool, n: nat): (seq<Item>, seq<Recorded>)
    requires list != [] && AllDo(list)
    decreases |list|
  {
    var k := BasicLength(list);
    var here := BasicBlock(pos, blockEnd, list, extend);
    var items := (if here != [] then [Count(n)] else []) + list[..k];
    if k == |list| then (items, here)
    else
      var (restItems, rest) := AddToBlocks(Pos(list[k].stmt), blockEnd, list[k..], false, n + |here|);
      (items + restItems, here + rest)
  }

  /** addCounters; entry is the event of entering the list. */
  function AddCounters(pos: int, blockEnd: int, list: seq<Item>, extend: bool, n: nat, entry: Event)
      : (seq<Item>, seq<Recorded>)
    requires AllDo(list)
  {
    if list == [] then ([Count(n)], [Recorded(CoverBlock(pos, blockEnd, 0), entry)])
    else AddToBlocks(pos, blockEnd, list, extend, n)
  }

  /** The list entries that hold the first basic block of list. */
  function HeadItems(pos: int, blockEnd: int, list: seq<Item>, extend: bool, n: nat): seq<Item>
    requires list != [] && AllDo(list)
  {
    (if BasicBlock(pos, blockEnd, list, extend) != [] then [Count(n)] else []) + list[..BasicLength(list)]
  }

  /** One turn of the loop. */
  lemma AddStep(pos: int, blockEnd: int, list: seq<Item>, extend: bool, n: nat)
    requires list != [] && AllDo(list)
    ensures var k, here, head := BasicLength(list), BasicBlock(pos, blockEnd, list, extend),
                                 HeadItems(pos, blockEnd, list, extend, n);
      && (k == |list| ==> AddToBlocks(pos, blockEnd, list, extend, n) == (head, here))
      && (k < |list| ==>
            var (rest, more) := AddToBlocks(Pos(list[k].stmt), blockEnd, list[k..], false, n + |here|);
            AddToBlocks(pos, blockEnd, list, extend, n) == (head + rest, here + more))
  {
  }

  lemma {:induction false} AddedHeight(pos: int, blockEnd: int, list: seq<Item>, extend: bool, n: nat)
    requires list != [] && AllDo(list)
    ensures ListHeight(AddToBlocks(pos, blockEnd, list, extend, n).0) == ListHeight(list)
    decreases |list|
  {
    hide BasicBlock, ListHeight, AddToBlocks;
    var k := BasicLength(list);
    var here := BasicBlock(pos, blockEnd, list, extend);
    AddStep(pos, blockEnd, list, extend, n);
    HeadHeight(list, k, n);
    if k < |list| {
      AddedHeight(Pos(list[k].stmt), blockEnd, list[k..], false, n + |here|);
      ListHeightConcat(HeadItems(pos, blockEnd, list, extend, n),
                       AddToBlocks(Pos(list[k].stmt), blockEnd, list[k..], false, n + |here|).0);
    } else {
      assert list[..k] == list;
    }
  }

  lemma HeadHeight(list: seq<Item>, k: nat, n: nat)
    requires k <= |list|
    ensures ListHeight([Count(n)] + list[..k]) == ListHeight(list[..k]) && [] + list[..k] == list[..k]
    ensures ListHeight(list) == Max(ListHeight(list[..k]), ListHeight(list[k..]))
  {
    assert ListHeight([Count(n)]) == 0;
    ListHeightConcat([Count(n)], list[..k]);
    ListHeightConcat(list[..k], list[k..]);
    assert list[..k] + list[k..] == list;
  }

  lemma CountedHeight(pos: int, blockEnd: int, list: seq<Item>, extend: bool, n: nat, entry: Event)
    requires AllDo(list)
    ensures ListHeight(AddCounters(pos, blockEnd, list, extend, n, entry).0) == ListHeight(list)
  {
    if list != [] {
      AddedHeight(pos, blockEnd, list, extend, n);
    } else {
      assert ListHeight([Count(n)]) == 0;
    }
  }

  /** The statement has no counters yet, and what follows else is an if or a block. */
  predicate Source(s: Stmt) {
    match s
    case Basic(_, _, _) => true
    case BlockStmt(b) => AllDo(b.list) && SourceItems(b.list)
    case If(_, b, els) => AllDo(b.list) && SourceItems(b.list) && SourceElse(els)
    case Loop(_, b) => AllDo(b.list) && SourceItems(b.list)
    case Switch(_, _, cs, _) => SourceClauses(cs)
    case Labeled(_, _, inner) => Source(inner)
  }

  predicate SourceElse(els: Else) {
    match els
    case NoElse => true
    case ElseIf(s) => s.If? && Source(s)
    case ElseBlock(b) => AllDo(b.list) && SourceItems(b.list)
  }

  predicate SourceItems(l: seq<Item>) {
    forall i :: 0 <= i < |l| ==> SourceItem(l[i])
  }

  predicate SourceItem(item: Item) {
    match item
    case Do(s) => Source(s)
    case Count(_) => true
  }

  predicate SourceClauses(cs: seq<Clause>) {
    forall i :: 0 <= i < |cs| ==> SourceClause(cs[i])
  }

  predicate SourceClause(c: Clause) {
    AllDo(c.body) && SourceItems(c.body)
  }

  lemma {:induction false} AddedSource(pos: int, blockEnd: int, list: seq<Item>, extend: bool, n: nat)
    requires list != [] && AllDo(list) && SourceItems(list)
    ensures SourceItems(AddToBlocks(pos, blockEnd, list, extend, n).0)
    decreases |list|
  {
    hide BasicBlock, SourceItems, AddToBlocks;
    var k := BasicLength(list);
    var here := BasicBlock(pos, blockEnd, list, extend);
    AddStep(pos, blockEnd, list, extend, n);
    HeadSource(list, k, n);
    if k < |list| {
      AddedSource(Pos(list[k].stmt), blockEnd, list[k..], false, n + |here|);
      SourceConcat(HeadItems(pos, blockEnd, list, extend, n),
                   AddToBlocks(Pos(list[k].stmt), blockEnd, list[k..], false, n + |here|).0);
    }
  }

  lemma HeadSource(list: seq<Item>, k: nat, n: nat)
    requires SourceItems(list) && k <= |list|
    ensures SourceItems([Count(n)] + list[..k]) && SourceItems([] + list[..k]) && SourceItems(list[k..])
  {
    hide SourceItem;
    CountIsSource(n);
  }

  lemma SourceConcat(a: seq<Item>, b: seq<Item>)
    requires SourceItems(a) && SourceItems(b)
    ensures SourceItems(a + b)
  {
    hide SourceItem;
  }

  lemma CountIsSource(n: nat)
    ensures SourceItem(Count(n))
  {
  }

  /** What the visit of a list needs to know about the list with counters. */
  lemma ReadyToVisit(pos: int, blockEnd: int, list: seq<Item>, extend: bool, n: nat, entry: Event)
    requires AllDo(list) && SourceItems(list)
    ensures var items := AddCounters(pos, blockEnd, list, extend, n, entry).0;
      SourceItems(items) && ListHeight(items) == ListHeight(list)
  {
    CountedHeight(pos, blockEnd, list, extend, n, entry);
    if list != [] {
      AddedSource(pos, blockEnd, list, extend, n);
    } else {
      CountIsSource(n);
    }
  }

  /** Visit of a block that is the body of something, or a statement: its own counters first, then
      those of the statements in it. */
  function VisitBlock(b: Block, n: nat, entry: Event): (r: (Block, seq<Recorded>))
    requires AllDo(b.list) && SourceItems(b.list)
    decreases ListHeight(b.list), 4, 0
  {
    ReadyToVisit(b.lbrace, BlockEnd(b), b.list, true, n, entry);
    var (items, mine) := AddCounters(b.lbrace, BlockEnd(b), b.list, true, n, entry);
    var (list, theirs) := VisitList(items, n + |mine|);
    (Block(b.lbrace, list, b.rbrace), mine + theirs)
  }

  function VisitList(l: seq<Item>, n: nat): (seq<Item>, seq<Recorded>)
    requires SourceItems(l)
    decreases ListHeight(l), 2, |l|
  {
    if l == [] then ([], [])
    else if l[0].Count? then
      var (rest, more) := VisitList(l[1..], n);
      ([l[0]] + rest, more)
    else
      assert SourceItem(l[0]);
      var (s, mine) := VisitStmt(l[0].stmt, n);
      var (rest, more) := VisitList(l[1..], n + |mine|);
      ([Do(s)] + rest, mine + more)
  }

  function VisitStmt(s: Stmt, n: nat): (Stmt, seq<Recorded>)
    requires Source(s)
    decreases Height(s), 1, 0
  {
    match s
    case Basic(_, _, _) => (s, [])
    case BlockStmt(b) =>
      var (body, rs) := VisitBlock(b, n, Enter(b.lbrace));
      (BlockStmt(body), rs)
    case If(pos, b, els) =>
      var (body, rs) := VisitBlock(b, n, Into(pos, 1));
      var (other, more) := VisitElse(pos, BlockEnd(b), els, n + |rs|);
      (If(pos, body, other), rs + more)
    case Loop(pos, b) =>
      var (body, rs) := VisitBlock(b, n, Into(pos, 1));
      (Loop(pos, body), rs)
    case Switch(pos, lbrace, cs, rbrace) =>
      if cs == [] then (s, [])
      else (
        ClausesReady(pos, cs, 0, n);
        var (counted, rs) := CountClauses(pos, cs, 0, n);
        var (visited, more) := VisitClauses(counted, n + |rs|);
        (Switch(pos, lbrace, visited, rbrace), rs + more))
    case Labeled(pos, lab, inner) =>
      var (visited, rs) := VisitStmt(inner, n);
      (Labeled(pos, lab, visited), rs)
  }

  /** An else starts where the body before it ends; an if after else gets a block around it. */
  function VisitElse(pos: int, start: int, els: Else, n: nat): (Else, seq<Recorded>)
    requires SourceElse(els)
    decreases ElseHeight(els), 5, 0
  {
    match els
    case NoElse => (NoElse, [])
    case ElseIf(s) =>
      OneHeight(s);
      OneSource(s);
      var (block, rs) := VisitBlock(Block(start, [Do(s)], End(s)), n, Into(pos, 0));
      (ElseBlock(block), rs)
    case ElseBlock(b) =>
      var (block, rs) := VisitBlock(Block(start, b.list, b.rbrace), n, Into(pos, 0));
      (ElseBlock(block), rs)
  }

  lemma OneSource(s: Stmt)
    requires Source(s)
    ensures SourceItems([Do(s)])
  {
    assert SourceItem(Do(s));
  }

  /** The counters of all clauses of a switch or select, before anything inside them; cs[0] is
      clause k. */
  function CountClauses(pos: int, cs: seq<Clause>, k: nat, n: nat): (seq<Clause>, seq<Recorded>)
    requires SourceClauses(cs)
    decreases |cs|
  {
    if cs == [] then ([], [])
    else
      assert SourceClause(cs[0]);
      var (items, rs) := AddCounters(cs[0].pos, ClauseEnd(cs[0]), cs[0].body, false, n, Into(pos, k));
      var (rest, more) := CountClauses(pos, cs[1..], k + 1, n + |rs|);
      ([Clause(cs[0].pos, cs[0].colon, items)] + rest, rs + more)
  }

  ghost predicate VisitableClauses(cs: seq<Clause>) {
    forall i :: 0 <= i < |cs| ==> SourceItems(cs[i].body)
  }

  lemma {:induction false} ClausesReady(pos: int, cs: seq<Clause>, k: nat, n: nat)
    requires SourceClauses(cs)
    ensures var r := CountClauses(pos, cs, k, n).0; VisitableClauses(r) && ClausesHeight(r) == ClausesHeight(cs)
    decreases |cs|
  {
    hide AddCounters, SourceItems;
    if cs != [] {
      assert SourceClause(cs[0]);
      ReadyToVisit(cs[0].pos, ClauseEnd(cs[0]), cs[0].body, false, n, Into(pos, k));
      var (items, rs) := AddCounters(cs[0].pos, ClauseEnd(cs[0]), cs[0].body, false, n, Into(pos, k));
      ClausesReady(pos, cs[1..], k + 1, n + |rs|);
      var rest := CountClauses(pos, cs[1..], k + 1, n + |rs|).0;
      assert ([Clause(cs[0].pos, cs[0].colon, items)] + rest)[1..] == rest;
    }
  }

  function VisitClauses(cs: seq<Clause>, n: nat): (seq<Clause>, seq<Recorded>)
    requires VisitableClauses(cs)
    decreases ClausesHeight(cs), 3, |cs|
  {
    if cs == [] then ([], [])
    else
      var (body, rs) := VisitList(cs[0].body, n);
      var (rest, more) := VisitClauses(cs[1..], n + |rs|);
      ([Clause(cs[0].pos, cs[0].colon, body)] + rest, rs + more)
  }

  predicate SourceFuncs(fs: seq<Block>) {
    forall f :: 0 <= f < |fs| ==> AllDo(fs[f].list) && SourceItems(fs[f].list)
  }

  /** The function bodies of a file, the first of which is function f. */
  function VisitFuncs(fs: seq<Block>, f: nat, n: nat): (seq<Block>, seq<Recorded>)
    requires SourceFuncs(fs)
    decreases |fs|
  {
    if fs == [] then ([], [])
    else
      var (body, rs) := VisitBlock(fs[0], n, Call(f));
      var (rest, more) := VisitFuncs(fs[1..], f + 1, n + |rs|);
      ([body] + rest, rs + more)
  }

  // ---------- the meaning is preserved ----------

  lemma {:induction false} StripConcat(a: seq<Item>, b: seq<Item>)
    ensures StripList(a + b) == StripList(a) + StripList(b)
  {
    hide StripItem;
    if a == [] {
      assert a + b == b;
    } else {
      assert (a + b)[0] == a[0] && (a + b)[1..] == a[1..] + b;
      StripConcat(a[1..], b);
    }
  }

  lemma StripOne(item: Item)
    ensures StripList([item]) == StripItem(item)
  {
    assert [item][1..] == [];
    assert StripList([item]) == StripItem(item) + StripList([]);
  }

  lemma {:induction false} AddedStrip(pos: int, blockEnd: int, list: seq<Item>, extend: bool, n: nat)
    requires list != [] && AllDo(list)
    ensures StripList(AddToBlocks(pos, blockEnd, list, extend, n).0) == StripList(list)
    decreases |list|
  {
    hide StripList, BasicBlock, AddToBlocks;
    var k := BasicLength(list);
    var here := BasicBlock(pos, blockEnd, list, extend);
    AddStep(pos, blockEnd, list, extend, n);
    StripOne(Count(n));
    StripConcat([Count(n)], list[..k]);
    assert [] + list[..k] == list[..k];
    StripConcat(list[..k], list[k..]);
    assert list[..k] + list[k..] == list;
    if k < |list| {
      AddedStrip(Pos(list[k].stmt), blockEnd, list[k..], false, n + |here|);
      StripConcat(HeadItems(pos, blockEnd, list, extend, n),
                  AddToBlocks(Pos(list[k].stmt), blockEnd, list[k..], false, n + |here|).0);
    } else {
      assert list[..k] == list;
    }
  }

  lemma CountedStrip(pos: int, blockEnd: int, list: seq<Item>, extend: bool, n: nat, entry: Event)
    requires AllDo(list)
    ensures StripList(AddCounters(pos, blockEnd, list, extend, n, entry).0) == StripList(list)
  {
    if list != [] {
      AddedStrip(pos, blockEnd, list, extend, n);
    } else {
      StripOne(Count(n));
    }
  }

  lemma {:induction false} VisitBlockStrip(b: Block, n: nat, entry: Event)
    requires AllDo(b.list) && SourceItems(b.list)
    ensures StripList(VisitBlock(b, n, entry).0.list) == StripList(b.list)
    decreases ListHeight(b.list), 4, 0
  {
    hide StripList, AddCounters, VisitList, SourceItem;
    ReadyToVisit(b.lbrace, BlockEnd(b), b.list, true, n, entry);
    var (items, mine) := AddCounters(b.lbrace, BlockEnd(b), b.list, true, n, entry);
    CountedStrip(b.lbrace, BlockEnd(b), b.list, true, n, entry);
    VisitListStrip(items, n + |mine|);
  }

  lemma {:induction false} VisitListStrip(l: seq<Item>, n: nat)
    requires SourceItems(l)
    ensures StripList(VisitList(l, n).0) == StripList(l)
    decreases ListHeight(l), 2, |l|
  {
    hide VisitStmt, StripStmt;
    if l != [] {
      if l[0].Count? {
        VisitListStrip(l[1..], n);
        var rest := VisitList(l[1..], n).0;
        assert ([l[0]] + rest)[1..] == rest;
      } else {
        assert SourceItem(l[0]);
        var (s, mine) := VisitStmt(l[0].stmt, n);
        VisitStmtStrip(l[0].stmt, n);
        VisitListStrip(l[1..], n + |mine|);
        var rest := VisitList(l[1..], n + |mine|).0;
        assert ([Do(s)] + rest)[1..] == rest;
      }
    }
  }

  lemma {:induction false} VisitStmtStrip(s: Stmt, n: nat)
    requires Source(s)
    ensures StripStmt(VisitStmt(s, n).0) == StripStmt(s)
    decreases Height(s), 1, 0
  {
    hide VisitBlock, VisitElse, CountClauses, VisitClauses, StripList, StripElse, StripClauses;
    match s
    case Basic(_, _, _) =>
    case BlockStmt(b) =>
      VisitBlockStrip(b, n, Enter(b.lbrace));
      VisitBlockBrace(b, n, Enter(b.lbrace));
    case If(pos, b, els) =>
      VisitBlockStrip(b, n, Into(pos, 1));
      VisitElseStrip(pos, BlockEnd(b), els, n + |VisitBlock(b, n, Into(pos, 1)).1|);
    case Loop(pos, b) =>
      VisitBlockStrip(b, n, Into(pos, 1));
    case Switch(pos, _, cs, _) =>
      if cs != [] {
        ClausesReady(pos, cs, 0, n);
        CountClausesStrip(pos, cs, 0, n);
        VisitClausesStrip(CountClauses(pos, cs, 0, n).0, n + |CountClauses(pos, cs, 0, n).1|);
      }
    case Labeled(_, _, inner) =>
      VisitStmtStrip(inner, n);
  }

  lemma VisitBlockBrace(b: Block, n: nat, entry: Event)
    requires AllDo(b.list) && SourceItems(b.list)
    ensures VisitBlock(b, n, entry).0.lbrace == b.lbrace && VisitBlock(b, n, entry).0.rbrace == b.rbrace
  {
    ReadyToVisit(b.lbrace, BlockEnd(b), b.list, true, n, entry);
  }

  lemma {:induction false} VisitElseStrip(pos: int, start: int, els: Else, n: nat)
    requires SourceElse(els)
    ensures StripElse(VisitElse(pos, start, els, n).0) == StripElse(els)
    decreases ElseHeight(els), 5, 0
  {
    hide VisitBlock, StripList, StripStmt;
    match els
    case NoElse =>
    case ElseIf(s) =>
      OneHeight(s);
      OneSource(s);
      VisitBlockStrip(Block(start, [Do(s)], End(s)), n, Into(pos, 0));
      StripOne(Do(s));
    case ElseBlock(b) =>
      VisitBlockStrip(Block(start, b.list, b.rbrace), n, Into(pos, 0));
  }

  lemma {:induction false} CountClausesStrip(pos: int, cs: seq<Clause>, k: nat, n: nat)
    requires SourceClauses(cs)
    ensures StripClauses(CountClauses(pos, cs, k, n).0) == StripClauses(cs)
    decreases |cs|
  {
    hide AddCounters, StripList, SourceItem;
    if cs != [] {
      assert SourceClause(cs[0]);
      CountedStrip(cs[0].pos, ClauseEnd(cs[0]), cs[0].body, false, n, Into(pos, k));
      var (items, rs) := AddCounters(cs[0].pos, ClauseEnd(cs[0]), cs[0].body, false, n, Into(pos, k));
      CountClausesStrip(pos, cs[1..], k + 1, n + |rs|);
      assert StripClauses(cs) == [Clause(0, 0, StripList(cs[0].body))] + StripClauses(cs[1..]);
      var rest := CountClauses(pos, cs[1..], k + 1, n + |rs|).0;
      assert ([Clause(cs[0].pos, cs[0].colon, items)] + rest)[1..] == rest;
    }
  }

  lemma {:induction false} VisitClausesStrip(cs: seq<Clause>, n: nat)
    requires VisitableClauses(cs)
    ensures StripClauses(VisitClauses(cs, n).0) == StripClauses(cs)
    decreases ClausesHeight(cs), 3, |cs|
  {
    hide VisitList, StripList, SourceItem;
    if cs != [] {
      VisitListStrip(cs[0].body, n);
      var (body, rs) := VisitList(cs[0].body, n);
      VisitClausesStrip(cs[1..], n + |rs|);
      var rest := VisitClauses(cs[1..], n + |rs|).0;
      assert ([Clause(cs[0].pos, cs[0].colon, body)] + rest)[1..] == rest;
    }
  }

  lemma {:induction false} VisitFuncsStrip(fs: seq<Block>, f: nat, n: nat)
    requires SourceFuncs(fs)
    ensures StripFuncs(VisitFuncs(fs, f, n).0) == StripFuncs(fs)
    decreases |fs|
  {
    hide VisitBlock, StripList;
    if fs != [] {
      VisitBlockStrip(fs[0], n, Call(f));
      var (body, rs) := VisitBlock(fs[0], n, Call(f));
      VisitFuncsStrip(fs[1..], f + 1, n + |rs|);
      var rest := VisitFuncs(fs[1..], f + 1, n + |rs|).0;
      assert VisitFuncs(fs, f, n).0 == [body] + rest;
      assert forall k :: 0 < k < |fs| ==> StripFuncs(fs)[k] == StripFuncs(fs[1..])[k - 1];
      assert forall k :: 0 < k < |fs| ==> StripFuncs([body] + rest)[k] == StripFuncs(rest)[k - 1];
    }
  }
}
