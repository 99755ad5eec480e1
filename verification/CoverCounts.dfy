/** Every counter that is added stands where it counts what its block records. */
module CoverCounts {
  import opened CoverSyntax
  import opened CoverRuns
  import opened Counters
  import opened CoverBlocks

  /** The event belongs to a statement that starts in [lo, hi). */
  predicate At(e: Event, lo: int, hi: int) {
    match e
    case Enter(pos) => lo <= pos < hi
    case Into(pos, _) => lo <= pos < hi
    case Call(_) => false
    case Counted(_) => false
  }

  /** Counter c is one of rs, numbered from n, and its block records e. */
  predicate Owns(rs: seq<Recorded>, n: nat, c: nat, e: Event) {
    n <= c < n + |rs| && rs[c - n].first == e
  }

  predicate Free(rs: seq<Recorded>, n: nat, c: nat) {
    !(n <= c < n + |rs|)
  }

  lemma OwnsBoth(a: seq<Recorded>, b: seq<Recorded>, n: nat, c: nat, e: Event)
    ensures Owns(a + b, n, c, e) <==> Owns(a, n, c, e) || Owns(b, n + |a|, c, e)
    ensures Free(a + b, n, c) <==> Free(a, n, c) && Free(b, n + |a|, c)
    ensures Owns(a, n, c, e) ==> Free(b, n + |a|, c)
    ensures Owns(b, n + |a|, c, e) ==> Free(a, n, c)
  {
  }

  // ---------- the counters of one list ----------

  /** Counter c stands before the statement whose beginning is e and nowhere else; e is about no
      other statement of the list. */
  ghost predicate TopPaired(l: seq<Item>, c: nat, e: Event)
    decreases |l|
  {
    if l == [] then true
    else if l[0] == Count(c) then
      |l| > 1 && l[1].Do? && e == Enter(Pos(l[1].stmt)) && TopPaired(l[1..][1..], c, e)
    else (l[0].Do? ==> !At(e, Pos(l[0].stmt), Span(l[0].stmt))) && TopPaired(l[1..], c, e)
  }

  lemma {:induction false} TopAway(l: seq<Item>, c: nat, e: Event, lo: int, hi: int)
    requires Count(c) !in l && PlacedList(l, lo, hi) && !At(e, lo, hi)
    ensures TopPaired(l, c, e)
  {
    hide Placed;
    if l != [] {
      ListBounds(l, lo, hi);
      if l[0].Do? {
        var s := l[0].stmt;
        assert PlacedItem(l[0], lo);
        StmtExtent(s);
        ListBounds(l[1..], Span(s), hi);
        TopAway(l[1..], c, e, Span(s), hi);
      } else {
        TopAway(l[1..], c, e, lo, hi);
      }
    }
  }

  lemma {:induction false} TopConcat(a: seq<Item>, b: seq<Item>, c: nat, e: Event)
    requires TopPaired(a, c, e) && TopPaired(b, c, e)
    ensures TopPaired(a + b, c, e)
    decreases |a|
  {
    if a == [] {
      assert a + b == b;
    } else {
      assert (a + b)[1..] == a[1..] + b;
      if a[0] == Count(c) {
        assert (a + b)[1] == a[1] && (a[1..] + b)[1..] == a[1..][1..] + b;
        TopConcat(a[1..][1..], b, c, e);
      } else {
        TopConcat(a[1..], b, c, e);
      }
    }
  }

  /** The entries that hold one basic block, whose counter is n. */
  lemma HeadTop(list: seq<Item>, k: nat, n: nat, c: nat, e: Event, lo: int, hi: int)
    requires 0 < k <= |list| && AllDo(list) && PlacedList(list[..k], lo, hi)
    ensures c == n && e == Enter(Pos(list[0].stmt)) ==> TopPaired([Count(n)] + list[..k], c, e) && At(e, lo, hi)
    ensures c != n && !At(e, lo, hi) ==> TopPaired([Count(n)] + list[..k], c, e)
    ensures !At(e, lo, hi) ==> TopPaired(list[..k], c, e)
  {
    hide Placed;
    var l := list[..k];
    var s := l[0].stmt;
    assert PlacedItem(l[0], lo);
    StmtExtent(s);
    ListBounds(l[1..], Span(s), hi);
    assert ([Count(n)] + l)[1..] == l;
    if !At(e, lo, hi) {
      TopAway(l, c, e, lo, hi);
    } else if e == Enter(Pos(s)) {
      TopAway(l[1..], c, e, Span(s), hi);
    }
  }

  /** The same, in the terms of the loop's turn. */
  lemma HeadPaired(pos: int, blockEnd: int, list: seq<Item>, extend: bool, n: nat, c: nat, e: Event, lo: int, mid: int)
    requires list != [] && AllDo(list) && PlacedList(list[..BasicLength(list)], lo, mid)
    ensures var here, head := BasicBlock(pos, blockEnd, list, extend), HeadItems(pos, blockEnd, list, extend, n);
      && (Owns(here, n, c, e) ==> TopPaired(head, c, e) && At(e, lo, mid))
      && (Free(here, n, c) && !At(e, lo, mid) ==> TopPaired(head, c, e))
  {
    hide PlacedList, TopPaired, BasicLength, At;
    var k := BasicLength(list);
    HeadTop(list, k, n, c, e, lo, mid);
    assert [] + list[..k] == list[..k];
  }

  /** Where the counters of addCounters stand. */
  lemma {:induction false} AddedTop(pos: int, blockEnd: int, list: seq<Item>, extend: bool, n: nat, c: nat, e: Event,
                                    lo: int, hi: int)
    requires list != [] && AllDo(list) && PlacedList(list, lo, hi)
    requires var rs := AddToBlocks(pos, blockEnd, list, extend, n).1;
      Owns(rs, n, c, e) || (Free(rs, n, c) && !At(e, lo, hi))
    ensures var (items, rs) := AddToBlocks(pos, blockEnd, list, extend, n);
      TopPaired(items, c, e) && (Owns(rs, n, c, e) ==> At(e, lo, hi))
    decreases |list|
  {
    hide PlacedList, AddToBlocks, TopPaired, BasicBlock, HeadItems;
    var k := BasicLength(list);
    var here := BasicBlock(pos, blockEnd, list, extend);
    var mid := Span(list[k - 1].stmt);
    AddStep(pos, blockEnd, list, extend, n);
    PlacedSplit(list, lo, hi, k);
    ListBounds(list[..k], lo, mid);
    ListBounds(list[k..], mid, hi);
    HeadPaired(pos, blockEnd, list, extend, n, c, e, lo, mid);
    var head := HeadItems(pos, blockEnd, list, extend, n);
    if k < |list| {
      var next := Pos(list[k].stmt);
      var (rest, more) := AddToBlocks(next, blockEnd, list[k..], false, n + |here|);
      OwnsBoth(here, more, n, c, e);
      AddedTop(next, blockEnd, list[k..], false, n + |here|, c, e, mid, hi);
      TopConcat(head, rest, c, e);
    }
  }

  lemma {:induction false} AddedCounts(pos: int, blockEnd: int, list: seq<Item>, extend: bool, n: nat, d: nat)
    requires list != [] && AllDo(list)
    ensures var (items, rs) := AddToBlocks(pos, blockEnd, list, extend, n); Count(d) in items ==> n <= d < n + |rs|
    decreases |list|
  {
    hide AddToBlocks;
    var k := BasicLength(list);
    var here := BasicBlock(pos, blockEnd, list, extend);
    AddStep(pos, blockEnd, list, extend, n);
    assert Count(d) !in list;
    if k < |list| {
      AddedCounts(Pos(list[k].stmt), blockEnd, list[k..], false, n + |here|, d);
    }
  }

  // ---------- visited trees ----------

  lemma VisitedPos(s: Stmt, n: nat)
    requires Source(s)
    ensures Pos(VisitStmt(s, n).0) == Pos(s)
  {
    hide VisitElse, CountClauses, VisitClauses;
    if s.BlockStmt? {
      VisitBlockBrace(s.body, n, Enter(s.body.lbrace));
    }
  }

  lemma {:induction false} VisitedShape(l: seq<Item>, n: nat)
    requires SourceItems(l)
    ensures var r := VisitList(l, n).0; |r| == |l| && forall i :: 0 <= i < |l| ==> r[i].Do? == l[i].Do?
    decreases |l|
  {
    hide VisitStmt, SourceItem;
    if l != [] {
      if l[0].Count? {
        VisitedShape(l[1..], n);
      } else {
        VisitedShape(l[1..], n + |VisitedMine(l, n)|);
      }
    }
  }

  function VisitedMine(l: seq<Item>, n: nat): seq<Recorded>
    requires SourceItems(l) && l != [] && l[0].Do?
  {
    assert SourceItem(l[0]);
    VisitStmt(l[0].stmt, n).1
  }

  lemma {:induction false} ListPaired(l: seq<Item>, n: nat, c: nat, e: Event, lo: int, hi: int)
    requires SourceItems(l) && PlacedList(l, lo, hi)
    requires var rs := VisitList(l, n).1;
      (Owns(rs, n, c, e) && Count(c) !in l) || (Free(rs, n, c) && TopPaired(l, c, e))
    ensures PairedList(VisitList(l, n).0, c, e)
    ensures Owns(VisitList(l, n).1, n, c, e) ==> At(e, lo, hi)
    decreases ListHeight(l), 2, |l|
  {
    hide VisitStmt, PairedStmt, Placed;
    if l != [] {
      if l[0].Count? {
        var rest := VisitList(l[1..], n).0;
        assert VisitList(l, n).0 == [l[0]] + rest && VisitList(l, n).0[1..] == rest;
        if l[0].c == c {
          assert SourceItem(l[1]) && PlacedItem(l[1], lo);
          var s := l[1..][0].stmt;
          var (s', mine) := VisitStmt(s, n);
          StmtPaired(s, n, c, e);
          var (after, more) := VisitList(l[1..][1..], n + |mine|);
          assert rest == [Do(s')] + after && rest[1..] == after;
          OwnsBoth(mine, more, n, c, e);
          ListPaired(l[1..][1..], n + |mine|, c, e, Span(s), hi);
        } else {
          ListPaired(l[1..], n, c, e, lo, hi);
        }
      } else {
        assert SourceItem(l[0]) && PlacedItem(l[0], lo);
        var s := l[0].stmt;
        StmtExtent(s);
        ListBounds(l[1..], Span(s), hi);
        var (s', mine) := VisitStmt(s, n);
        var (rest, more) := VisitList(l[1..], n + |mine|);
        assert VisitList(l, n).0 == [Do(s')] + rest && VisitList(l, n).0[1..] == rest;
        OwnsBoth(mine, more, n, c, e);
        if Owns(mine, n, c, e) {
          StmtPaired(s, n, c, e);
          TopAway(l[1..], c, e, Span(s), hi);
          ListPaired(l[1..], n + |mine|, c, e, Span(s), hi);
        } else {
          ListPaired(l[1..], n + |mine|, c, e, Span(s), hi);
          StmtPaired(s, n, c, e);
        }
      }
    }
  }

  /** A list that gets counters and is then visited: n1 and n2 number the two kinds of counters. */
  lemma {:induction false} BodyPaired(pos: int, blockEnd: int, list: seq<Item>, extend: bool, n1: nat, n2: nat,
                                      entry: Event, c: nat, e: Event, lo: int, hi: int)
    requires AllDo(list) && SourceItems(list) && PlacedList(list, lo, hi) && !At(entry, lo, hi)
    requires SourceItems(AddCounters(pos, blockEnd, list, extend, n1, entry).0)
    requires n1 + |AddCounters(pos, blockEnd, list, extend, n1, entry).1| <= n2
    requires var (items, mine) := AddCounters(pos, blockEnd, list, extend, n1, entry);
      var theirs := VisitList(items, n2).1;
      Owns(mine, n1, c, e) || Owns(theirs, n2, c, e) || (Free(mine, n1, c) && Free(theirs, n2, c) && !At(e, lo, hi))
    ensures var (items, mine) := AddCounters(pos, blockEnd, list, extend, n1, entry);
      var (visited, theirs) := VisitList(items, n2);
      if Owns(mine, n1, c, e) || Owns(theirs, n2, c, e) then
        PairedBody(entry, visited, c, e) && (e == entry || At(e, lo, hi))
      else PairedList(visited, c, e) && visited != [Count(c)]
    decreases ListHeight(list), 3, 0
  {
    hide PlacedList, VisitList, AddToBlocks, SourceItem, PairedList, TopPaired;
    ReadyToVisit(pos, blockEnd, list, extend, n1, entry);
    var (items, mine) := AddCounters(pos, blockEnd, list, extend, n1, entry);
    var (visited, theirs) := VisitList(items, n2);
    if list == [] {
      EmptyPaired(n1, n2, c, e);
    } else {
      AddedCounts(pos, blockEnd, list, extend, n1, c);
      AddedPlaced(pos, blockEnd, list, extend, n1, lo, hi);
      AddedLast(pos, blockEnd, list, extend, n1);
      VisitedShape(items, n2);
      if Owns(theirs, n2, c, e) {
        ListPaired(items, n2, c, e, lo, hi);
      } else {
        AddedTop(pos, blockEnd, list, extend, n1, c, e, lo, hi);
        ListPaired(items, n2, c, e, lo, hi);
      }
    }
  }

  lemma EmptyPaired(n1: nat, n2: nat, c: nat, e: Event)
    requires SourceItems([Count(n1)])
    ensures VisitList([Count(n1)], n2) == ([Count(n1)], []) && (c != n1 ==> PairedList([Count(n1)], c, e))
  {
    var l := [Count(n1)];
    assert l[1..] == [];
    assert VisitList([], n2) == ([], []);
    assert VisitList(l, n2) == ([l[0]] + VisitList(l[1..], n2).0, VisitList(l[1..], n2).1);
    assert [l[0]] + [] == l;
  }

  lemma {:induction false} BlockPaired(b: Block, n: nat, entry: Event, c: nat, e: Event, lo: int, hi: int)
    requires AllDo(b.list) && SourceItems(b.list) && PlacedList(b.list, lo, hi) && !At(entry, lo, hi)
    requires var rs := VisitBlock(b, n, entry).1; Owns(rs, n, c, e) || (Free(rs, n, c) && !At(e, lo, hi))
    ensures var (visited, rs) := VisitBlock(b, n, entry);
      if Owns(rs, n, c, e) then PairedBody(entry, visited.list, c, e) && (e == entry || At(e, lo, hi))
      else PairedList(visited.list, c, e) && visited.list != [Count(c)]
    decreases ListHeight(b.list), 4, 0
  {
    hide PlacedList, VisitList, AddCounters, SourceItem, PairedList, PairedBody;
    ReadyToVisit(b.lbrace, BlockEnd(b), b.list, true, n, entry);
    var (items, mine) := AddCounters(b.lbrace, BlockEnd(b), b.list, true, n, entry);
    OwnsBoth(mine, VisitList(items, n + |mine|).1, n, c, e);
    BodyPaired(b.lbrace, BlockEnd(b), b.list, true, n, n + |mine|, entry, c, e, lo, hi);
  }

  lemma {:induction false} StmtPaired(s: Stmt, n: nat, c: nat, e: Event)
    requires Source(s) && Placed(s)
    requires var rs := VisitStmt(s, n).1;
      Owns(rs, n, c, e) || (Free(rs, n, c) && (!At(e, Pos(s), Span(s)) || e == Enter(Pos(s))))
    ensures var (visited, rs) := VisitStmt(s, n);
      if Owns(rs, n, c, e) then PairedStmt(visited, false, c, e) && At(e, Pos(s), Span(s))
      else PairedStmt(visited, e == Enter(Pos(s)), c, e)
    decreases Height(s), 1, 0
  {
    hide VisitBlock, VisitElse, CountClauses, VisitClauses, PlacedList, SourceItems, PairedList, PairedBody, PairedElse;
    hide PairedClauses;
    StmtExtent(s);
    VisitedPos(s, n);
    match s
    case Basic(_, _, _) =>
    case BlockStmt(b) =>
      assert PlacedBlock(b);
      BlockPaired(b, n, Enter(b.lbrace), c, e, b.lbrace + 1, BlockEnd(b));
      BodyIs(Enter(b.lbrace), VisitBlock(b, n, Enter(b.lbrace)).0.list, c, e);
    case If(pos, b, els) =>
      IfPaired(s, n, c, e);
    case Loop(pos, b) =>
      assert PlacedBlock(b);
      BlockPaired(b, n, Into(pos, 1), c, e, b.lbrace + 1, BlockEnd(b));
      BodyIs(Into(pos, 1), VisitBlock(b, n, Into(pos, 1)).0.list, c, e);
    case Switch(_, _, _, _) =>
      SwitchPaired(s, n, c, e);
    case Labeled(_, _, inner) =>
      StmtExtent(inner);
      StmtPaired(inner, n, c, e);
  }

  lemma BodyIs(entry: Event, l: seq<Item>, c: nat, e: Event)
    ensures PairedBody(entry, l, c, e) <==> if l == [Count(c)] then e == entry else e != entry && PairedList(l, c, e)
  {
  }

  lemma {:induction false} IfPaired(s: Stmt, n: nat, c: nat, e: Event)
    requires s.If? && Source(s) && Placed(s)
    requires var rs := VisitStmt(s, n).1;
      Owns(rs, n, c, e) || (Free(rs, n, c) && (!At(e, Pos(s), Span(s)) || e == Enter(Pos(s))))
    ensures var (visited, rs) := VisitStmt(s, n);
      if Owns(rs, n, c, e) then PairedStmt(visited, false, c, e) && At(e, Pos(s), Span(s))
      else PairedStmt(visited, e == Enter(Pos(s)), c, e)
    decreases Height(s), 0, 0
  {
    hide VisitBlock, VisitElse, PlacedList, SourceItems, PairedList, PairedBody, PairedElse;
    var pos, b, els := s.pos, s.body, s.els;
    StmtExtent(s);
    assert PlacedBlock(b) && PlacedElse(els, BlockEnd(b));
    ElseExtent(BlockEnd(b), els);
    assert End(s) == ElseEnd(BlockEnd(b), els);
    var (body, rs) := VisitBlock(b, n, Into(pos, 1));
    var (other, more) := VisitElse(pos, BlockEnd(b), els, n + |rs|);
    OwnsBoth(rs, more, n, c, e);
    BodyIs(Into(pos, 1), body.list, c, e);
    if Owns(rs, n, c, e) {
      BlockPaired(b, n, Into(pos, 1), c, e, b.lbrace + 1, BlockEnd(b));
      ElsePaired(pos, BlockEnd(b), els, n + |rs|, c, e);
    } else {
      ElsePaired(pos, BlockEnd(b), els, n + |rs|, c, e);
      BlockPaired(b, n, Into(pos, 1), c, e, b.lbrace + 1, BlockEnd(b));
    }
  }

  lemma {:induction false} ElsePaired(pos: int, start: int, els: Else, n: nat, c: nat, e: Event)
    requires SourceElse(els) && PlacedElse(els, start) && pos < start
    requires var rs := VisitElse(pos, start, els, n).1;
      Owns(rs, n, c, e) || (Free(rs, n, c) && e != Into(pos, 0) && !At(e, start, ElseEnd(start, els)))
    ensures var (visited, rs) := VisitElse(pos, start, els, n);
      PairedElse(Into(pos, 0), visited, c, e)
      && (Owns(rs, n, c, e) ==> e == Into(pos, 0) || At(e, start, ElseEnd(start, els)))
    decreases ElseHeight(els), 5, 0
  {
    hide VisitBlock, PlacedList, SourceItems, PairedList, PairedBody, Placed;
    match els
    case NoElse =>
    case ElseIf(s) =>
      OneHeight(s);
      OneSource(s);
      StmtExtent(s);
      OnePlaced(s, start);
      var b := Block(start, [Do(s)], End(s));
      BlockPaired(b, n, Into(pos, 0), c, e, start + 1, End(s));
      BodyIs(Into(pos, 0), VisitBlock(b, n, Into(pos, 0)).0.list, c, e);
    case ElseBlock(b) =>
      assert PlacedBlock(b);
      var b' := Block(start, b.list, b.rbrace);
      PlacedWider(b.list, b.lbrace + 1, BlockEnd(b), start + 1, BlockEnd(b));
      BlockPaired(b', n, Into(pos, 0), c, e, start + 1, BlockEnd(b));
      BodyIs(Into(pos, 0), VisitBlock(b', n, Into(pos, 0)).0.list, c, e);
  }

  // ---------- clauses ----------

  /** e is the entry into clause k or a later one. */
  predicate IntoFrom(e: Event, pos: int, k: nat) {
    e.Into? && e.pos == pos && e.branch >= k
  }

  lemma {:induction false} ClausesPaired(pos: int, cs: seq<Clause>, k: nat, n1: nat, n2: nat, c: nat, e: Event, lo: int,
                                         hi: int)
    requires SourceClauses(cs) && PlacedClauses(cs, lo, hi) && pos < lo
    requires VisitableClauses(CountClauses(pos, cs, k, n1).0) && n1 + |CountClauses(pos, cs, k, n1).1| <= n2
    requires var (counted, rs) := CountClauses(pos, cs, k, n1);
      var more := VisitClauses(counted, n2).1;
      || Owns(rs, n1, c, e) || Owns(more, n2, c, e)
      || (Free(rs, n1, c) && Free(more, n2, c) && !At(e, lo, hi) && !IntoFrom(e, pos, k))
    ensures var (counted, rs) := CountClauses(pos, cs, k, n1);
      var (visited, more) := VisitClauses(counted, n2);
      && |visited| == |cs| && PairedClauses(pos, visited, k, c, e)
      && (Owns(rs, n1, c, e) || Owns(more, n2, c, e) ==>
            At(e, lo, hi) || (IntoFrom(e, pos, k) && !IntoFrom(e, pos, k + |cs|)))
    decreases ClausesHeight(cs), 5, |cs|
  {
    hide AddCounters, VisitList, PlacedList, SourceItems, PairedList, PairedBody, CountClauses, VisitClauses;
    if cs == [] {
      NoneCounted(pos, k, n1, n2);
    } else {
      var c0 := cs[0];
      assert SourceClause(c0);
      ClauseExtent(c0, hi);
      var end, next := ClauseEnd(c0), ClauseSpan(c0);
      ReadyToVisit(c0.pos, end, c0.body, false, n1, Into(pos, k));
      var (items, mine) := AddCounters(c0.pos, end, c0.body, false, n1, Into(pos, k));
      var (body, inner) := VisitList(items, n2);
      ClausesReady(pos, cs[1..], k + 1, n1 + |mine|);
      var (counted, rs) := CountClauses(pos, cs[1..], k + 1, n1 + |mine|);
      var (visited, more) := VisitClauses(counted, n2 + |inner|);
      CountStep(pos, cs, k, n1);
      VisitStep(Clause(c0.pos, c0.colon, items), counted, n2);
      OwnsBoth(mine, rs, n1, c, e);
      OwnsBoth(inner, more, n2, c, e);
      ClauseBoundsOf(cs[1..], next, hi);
      BodyIs(Into(pos, k), body, c, e);
      assert ([Clause(c0.pos, c0.colon, body)] + visited)[1..] == visited;
      if Owns(mine, n1, c, e) || Owns(inner, n2, c, e) {
        BodyPaired(c0.pos, end, c0.body, false, n1, n2, Into(pos, k), c, e, c0.colon, next);
        ClausesPaired(pos, cs[1..], k + 1, n1 + |mine|, n2 + |inner|, c, e, next, hi);
      } else {
        ClausesPaired(pos, cs[1..], k + 1, n1 + |mine|, n2 + |inner|, c, e, next, hi);
        BodyPaired(c0.pos, end, c0.body, false, n1, n2, Into(pos, k), c, e, c0.colon, next);
      }
    }
  }

  lemma NoneCounted(pos: int, k: nat, n1: nat, n2: nat)
    ensures CountClauses(pos, [], k, n1) == ([], []) && VisitClauses([], n2) == ([], [])
  {
  }

  /** Counting the clauses, unfolded once. */
  lemma CountStep(pos: int, cs: seq<Clause>, k: nat, n: nat)
    requires SourceClauses(cs) && cs != [] && SourceClause(cs[0])
    ensures var (items, mine) := AddCounters(cs[0].pos, ClauseEnd(cs[0]), cs[0].body, false, n, Into(pos, k));
      var (counted, rs) := CountClauses(pos, cs[1..], k + 1, n + |mine|);
      CountClauses(pos, cs, k, n) == ([Clause(cs[0].pos, cs[0].colon, items)] + counted, mine + rs)
  {
    hide AddCounters;
  }

  /** Visiting the clauses, unfolded once. */
  lemma VisitStep(c: Clause, rest: seq<Clause>, n: nat)
    requires SourceItems(c.body) && VisitableClauses(rest)
    ensures var (body, inner) := VisitList(c.body, n);
      var (visited, more) := VisitClauses(rest, n + |inner|);
      && VisitableClauses([c] + rest)
      && VisitClauses([c] + rest, n) == ([Clause(c.pos, c.colon, body)] + visited, inner + more)
  {
    hide VisitList, SourceItems;
    assert ([c] + rest)[1..] == rest;
  }

  lemma {:induction false} ClauseBoundsOf(cs: seq<Clause>, lo: int, hi: int)
    requires SourceClauses(cs) && PlacedClauses(cs, lo, hi)
    ensures lo <= hi
  {
    forall c | c in cs
      ensures EndsWell(c)
    {
      var i :| 0 <= i < |cs| && cs[i] == c;
      assert SourceClause(cs[i]);
    }
    ClauseBounds(cs, lo, hi);
  }

  lemma {:induction false} SwitchPaired(s: Stmt, n: nat, c: nat, e: Event)
    requires s.Switch? && Source(s) && Placed(s)
    requires var rs := VisitStmt(s, n).1;
      Owns(rs, n, c, e) || (Free(rs, n, c) && (!At(e, Pos(s), Span(s)) || e == Enter(Pos(s))))
    ensures var (visited, rs) := VisitStmt(s, n);
      if Owns(rs, n, c, e) then PairedStmt(visited, false, c, e) && At(e, Pos(s), Span(s))
      else PairedStmt(visited, e == Enter(Pos(s)), c, e)
    decreases Height(s), 0, 0
  {
    hide CountClauses, VisitClauses, PlacedClauses, SourceClauses, PairedClauses;
    var pos, cs := s.pos, s.clauses;
    if cs == [] {
      assert PairedClauses(pos, [], 0, c, e) by {
        NoClausesPaired(pos, c, e);
      }
    } else {
      ClausesReady(pos, cs, 0, n);
      var (counted, rs) := CountClauses(pos, cs, 0, n);
      OwnsBoth(rs, VisitClauses(counted, n + |rs|).1, n, c, e);
      ClausesPaired(pos, cs, 0, n, n + |rs|, c, e, s.lbrace + 1, s.rbrace + 1);
    }
  }

  lemma NoClausesPaired(pos: int, c: nat, e: Event)
    ensures PairedClauses(pos, [], 0, c, e)
  {
  }

  // ---------- functions ----------

  predicate AtLeast(e: Event, lo: int) {
    (e.Enter? || e.Into?) && e.pos >= lo
  }

  predicate CallFrom(e: Event, f: nat) {
    e.Call? && e.f >= f
  }

  ghost predicate FuncsAllPaired(fs: seq<Block>, f: nat, c: nat, e: Event) {
    forall g: nat :: g < |fs| ==> PairedBody(Call(f + g), fs[g].list, c, e)
  }

  lemma {:induction false} FuncsPaired(fs: seq<Block>, f: nat, n: nat, c: nat, e: Event, lo: int)
    requires SourceFuncs(fs) && PlacedFuncs(fs, lo)
    requires var rs := VisitFuncs(fs, f, n).1;
      Owns(rs, n, c, e) || (Free(rs, n, c) && !AtLeast(e, lo) && !CallFrom(e, f))
    ensures var (visited, rs) := VisitFuncs(fs, f, n);
      FuncsAllPaired(visited, f, c, e) && (Owns(rs, n, c, e) ==> AtLeast(e, lo) || CallFrom(e, f))
    decreases |fs|
  {
    hide VisitBlock, PlacedList, SourceItems, PairedBody, PairedList;
    if fs != [] {
      var b := fs[0];
      assert PlacedBlock(b);
      var (body, mine) := VisitBlock(b, n, Call(f));
      var (rest, more) := VisitFuncs(fs[1..], f + 1, n + |mine|);
      OwnsBoth(mine, more, n, c, e);
      BodyIs(Call(f), body.list, c, e);
      if Owns(mine, n, c, e) {
        BlockPaired(b, n, Call(f), c, e, b.lbrace + 1, BlockEnd(b));
        FuncsPaired(fs[1..], f + 1, n + |mine|, c, e, BlockEnd(b));
      } else {
        FuncsPaired(fs[1..], f + 1, n + |mine|, c, e, BlockEnd(b));
        BlockPaired(b, n, Call(f), c, e, b.lbrace + 1, BlockEnd(b));
      }
      FirstAndRest(body, rest, f, c, e);
    }
  }

  lemma FirstAndRest(body: Block, rest: seq<Block>, f: nat, c: nat, e: Event)
    requires PairedBody(Call(f), body.list, c, e) && FuncsAllPaired(rest, f + 1, c, e)
    ensures FuncsAllPaired([body] + rest, f, c, e)
  {
    hide PairedBody;
    var all := [body] + rest;
    forall g: nat | g < |all|
      ensures PairedBody(Call(f + g), all[g].list, c, e)
    {
      if g > 0 {
        var h := g - 1;
        assert PairedBody(Call(f + 1 + h), rest[h].list, c, e);
      }
    }
  }
}
