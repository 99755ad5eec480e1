/** The instrumentation as it runs, and what it guarantees (cmd/cover/cover.go). */
module CoverFile {
  import opened CoverSyntax
  import opened CoverRuns
  import Counters
  import opened CoverBlocks
  import opened CoverCounts
  import opened Covering

  type CoverBlock = Counters.CoverBlock

  type Recorded = Counters.Recorded

  /** File: the file that is instrumented. Trees are rewritten, blocks are appended. */
  class SourceFile {
    var blocks: seq<CoverBlock>
    /** The blocks together with the events their counters count. */
    ghost var recorded: seq<Recorded>

    ghost predicate Valid()
      reads this
    {
      |blocks| == |recorded| && forall i :: 0 <= i < |blocks| ==> recorded[i].block == blocks[i]
    }

    constructor ()
      ensures Valid() && recorded == []
    {
      blocks, recorded := [], [];
    }

    /** newCounter: the update of the next counter. */
    method NewCounter(start: int, end: int, numStmt: nat, ghost first: Event) returns (item: Item)
      requires Valid()
      modifies this
      ensures Valid() && item == Count(|old(recorded)|)
      ensures recorded ==
        old(recorded) + [Counters.Recorded.Recorded(Counters.CoverBlock.CoverBlock(start, end, numStmt), first)]
    {
      item := Count(|blocks|);
      blocks := blocks + [Counters.CoverBlock.CoverBlock(start, end, numStmt)];
      recorded := recorded + [Counters.Recorded.Recorded(Counters.CoverBlock.CoverBlock(start, end, numStmt), first)];
    }

    /** addCounters: the list with a counter before each basic block. */
    method AddCounters(pos: int, blockEnd: int, list: seq<Item>, extendToClosingBrace: bool, ghost entry: Event)
      returns (newList: seq<Item>)
      requires Valid() && Counters.AllDo(list)
      modifies this
      ensures Valid()
      ensures var n := |old(recorded)|;
        var (items, added) := Counters.AddCounters(pos, blockEnd, list, extendToClosingBrace, n, entry);
        newList == items && recorded == old(recorded) + added
      ensures var b := Body(pos, blockEnd, list, extendToClosingBrace);
        (exists lo, hi :: PlacedBody(b, lo, hi)) ==> Covers(recorded[|old(recorded)|..], {b})
    {
      hide Adding, Counters.AddToBlocks, Counters.EndsBasicBlock, Counters.Boundary, Counters.BasicLength, Covers,
        PlacedBody;
      ListCovered(Body(pos, blockEnd, list, extendToClosingBrace), |recorded|, entry);
      if |list| == 0 {
        var counter := NewCounter(pos, blockEnd, 0, entry);
        return [counter];
      }
      ghost var goal := Counters.AddToBlocks(pos, blockEnd, list, extendToClosingBrace, |recorded|);
      ghost var all := recorded + goal.1;
      newList := [];
      var rest, start, extend := list, pos, extendToClosingBrace;
      AddingStart(rest, start, blockEnd, extend, recorded);
      while |rest| > 0
        invariant Valid() && Counters.AllDo(rest)
        invariant Adding(rest, start, blockEnd, extend, newList, recorded, goal.0, all)
        decreases |rest|
      {
        ghost var before, wasExtend, done := recorded, extend, newList;
        var last, end := 0, blockEnd;
        while last < |rest|
          invariant 0 <= last <= |rest| && extend == wasExtend && recorded == before && Valid()
          invariant forall i :: 0 <= i < last ==> !Counters.EndsBasicBlock(rest[i].stmt)
          invariant end == if last == 0 then blockEnd else Counters.Boundary(rest[last - 1].stmt)
        {
          end := Counters.Boundary(rest[last].stmt);
          if Counters.EndsBasicBlock(rest[last].stmt) {
            extend := false;
            last := last + 1;
            break;
          }
          last := last + 1;
        }
        if extend {
          end := blockEnd;
        }
        AddingStep(rest, start, blockEnd, wasExtend, extend, newList, recorded, goal.0, all, last, end);
        if start != end {
          var counter := NewCounter(start, end, last, Enter(Pos(rest[0].stmt)));
          newList := newList + [counter];
        }
        newList := newList + rest[..last];
        rest := rest[last..];
        if |rest| > 0 {
          start := Pos(rest[0].stmt);
        }
      }
      AddingEnd(rest, start, blockEnd, extend, newList, recorded, goal.0, all);
    }

    /** Visit of a body or of a block statement: counters for its list, then its statements. */
    method VisitBlock(b: Block, ghost entry: Event) returns (r: Block)
      requires Valid() && Counters.AllDo(b.list) && Counters.SourceItems(b.list)
      modifies this
      ensures Valid()
      ensures var (visited, added) := Counters.VisitBlock(b, |old(recorded)|, entry);
        r == visited && recorded == old(recorded) + added
      decreases ListHeight(b.list), 4, 0
    {
      hide Counters.AddCounters, Counters.VisitList, Counters.SourceItems;
      Counters.ReadyToVisit(b.lbrace, BlockEnd(b), b.list, true, |recorded|, entry);
      var items := AddCounters(b.lbrace, BlockEnd(b), b.list, true, entry);
      var list := VisitList(items);
      r := Block(b.lbrace, list, b.rbrace);
    }

    /** The walk over a list of statements; counters have nothing inside. */
    method VisitList(l: seq<Item>) returns (r: seq<Item>)
      requires Valid() && Counters.SourceItems(l)
      modifies this
      ensures Valid()
      ensures var (visited, added) := Counters.VisitList(l, |old(recorded)|);
        r == visited && recorded == old(recorded) + added
      decreases ListHeight(l), 2, |l|
    {
      hide Counters.VisitStmt;
      if |l| == 0 {
        return [];
      }
      var first := l[0];
      if l[0].Do? {
        assert Counters.SourceItem(l[0]);
        var visited := VisitStmt(l[0].stmt);
        first := Do(visited);
      }
      var rest := VisitList(l[1..]);
      r := [first] + rest;
    }

    /** Visit, for each kind of statement. */
    method VisitStmt(s: Stmt) returns (r: Stmt)
      requires Valid() && Counters.Source(s)
      modifies this
      ensures Valid()
      ensures var (visited, added) := Counters.VisitStmt(s, |old(recorded)|);
        r == visited && recorded == old(recorded) + added
      decreases Height(s), 1, 0
    {
      hide Counters.VisitBlock, Counters.VisitElse, Counters.CountClauses, Counters.VisitClauses;
      hide Counters.SourceItems, Counters.SourceClauses;
      match s
      case Basic(_, _, _) =>
        r := s;
      case BlockStmt(b) =>
        var body := VisitBlock(b, Enter(b.lbrace));
        r := BlockStmt(body);
      case If(pos, b, els) =>
        var body := VisitBlock(b, Into(pos, 1));
        var other := VisitElse(pos, BlockEnd(b), els);
        r := If(pos, body, other);
      case Loop(pos, b) =>
        var body := VisitBlock(b, Into(pos, 1));
        r := Loop(pos, body);
      case Switch(pos, lbrace, cs, rbrace) =>
        if |cs| == 0 {
          r := s;
        } else {
          Counters.ClausesReady(pos, cs, 0, |recorded|);
          var counted := CountClauses(pos, cs);
          var visited := VisitClauses(counted);
          r := Switch(pos, lbrace, visited, rbrace);
        }
      case Labeled(pos, lab, inner) =>
        var visited := VisitStmt(inner);
        r := Labeled(pos, lab, visited);
    }

    /** The else of an if: an if gets a block around it, a block starts earlier. */
    method VisitElse(pos: int, start: int, els: Else) returns (r: Else)
      requires Valid() && Counters.SourceElse(els)
      modifies this
      ensures Valid()
      ensures var (visited, added) := Counters.VisitElse(pos, start, els, |old(recorded)|);
        r == visited && recorded == old(recorded) + added
      decreases ElseHeight(els), 5, 0
    {
      hide Counters.VisitBlock, Counters.SourceItems;
      match els
      case NoElse =>
        r := els;
      case ElseIf(s) =>
        OneHeight(s);
        Counters.OneSource(s);
        var block := VisitBlock(Block(start, [Do(s)], End(s)), Into(pos, 0));
        r := ElseBlock(block);
      case ElseBlock(b) =>
        var block := VisitBlock(Block(start, b.list, b.rbrace), Into(pos, 0));
        r := ElseBlock(block);
    }

    /** The loop of Visit over the clauses of a switch or select. */
    method CountClauses(pos: int, cs: seq<Clause>) returns (r: seq<Clause>)
      requires Valid() && Counters.SourceClauses(cs)
      modifies this
      ensures Valid()
      ensures var (counted, added) := Counters.CountClauses(pos, cs, 0, |old(recorded)|);
        r == counted && recorded == old(recorded) + added
    {
      hide Counters.CountClauses, Counters.AddCounters, Counting;
      ghost var goal := Counters.CountClauses(pos, cs, 0, |recorded|);
      ghost var all := recorded + goal.1;
      r := [];
      CountingStart(pos, cs, recorded);
      for k := 0 to |cs|
        invariant Valid() && |r| == k && Counting(pos, cs, k, r, recorded, goal.0, all)
      {
        var c := cs[k];
        assert Counters.SourceClause(cs[k]);
        CountingStep(pos, cs, k, r, recorded, goal.0, all);
        var body := AddCounters(c.pos, ClauseEnd(c), c.body, false, Into(pos, k));
        r := r + [Clause(c.pos, c.colon, body)];
      }
      CountingEnd(pos, cs, r, recorded, goal.0, all);
    }

    method VisitClauses(cs: seq<Clause>) returns (r: seq<Clause>)
      requires Valid() && Counters.VisitableClauses(cs)
      modifies this
      ensures Valid()
      ensures var (visited, added) := Counters.VisitClauses(cs, |old(recorded)|);
        r == visited && recorded == old(recorded) + added
      decreases ClausesHeight(cs), 3, |cs|
    {
      hide Counters.VisitList, Counters.SourceItems;
      if |cs| == 0 {
        return [];
      }
      var body := VisitList(cs[0].body);
      var rest := VisitClauses(cs[1..]);
      r := [Clause(cs[0].pos, cs[0].colon, body)] + rest;
    }

    /** The walk over the function bodies of a file, the first of which is function f. */
    method VisitFuncs(fs: seq<Block>, ghost f: nat) returns (r: seq<Block>)
      requires Valid() && Counters.SourceFuncs(fs)
      modifies this
      ensures Valid()
      ensures var (visited, added) := Counters.VisitFuncs(fs, f, |old(recorded)|);
        r == visited && recorded == old(recorded) + added
      ensures AllSpaced(FuncBodies(fs)) && (exists lo :: PlacedFuncs(fs, lo)) ==>
        Covers(recorded[|old(recorded)|..], FuncBodies(fs))
      decreases |fs|
    {
      hide Counters.VisitBlock, Counters.SourceItems, Covers, PlacedFuncs, AllSpaced, FuncBodies;
      FileCovers(fs, f, |recorded|);
      if |fs| == 0 {
        return [];
      }
      var body := VisitBlock(fs[0], Call(f));
      var rest := VisitFuncs(fs[1..], f + 1);
      r := [body] + rest;
    }
  }

  lemma ListCovered(b: Body, n: nat, entry: Event)
    requires Counters.AllDo(b.list)
    ensures (exists lo, hi :: PlacedBody(b, lo, hi)) ==>
      Covers(Counters.AddCounters(b.start, b.end, b.list, b.whole, n, entry).1, {b})
  {
    hide Covers, PlacedBody, Counters.AddCounters;
    if lo, hi :| PlacedBody(b, lo, hi) {
      CountedCovers(b, lo, hi, n, entry);
    }
  }

  lemma FileCovers(fs: seq<Block>, f: nat, n: nat)
    requires Counters.SourceFuncs(fs)
    ensures AllSpaced(FuncBodies(fs)) && (exists lo :: PlacedFuncs(fs, lo)) ==>
      Covers(Counters.VisitFuncs(fs, f, n).1, FuncBodies(fs))
  {
    hide Covers, PlacedFuncs, AllSpaced, FuncBodies, Counters.VisitFuncs, Counters.SourceItems;
    if lo :| PlacedFuncs(fs, lo) {
      if AllSpaced(FuncBodies(fs)) {
        FuncsCover(fs, f, n, lo);
      }
    }
  }

  /** What the loop over the clauses has still to do leads to the result. */
  ghost predicate Counting(pos: int, cs: seq<Clause>, k: nat, done: seq<Clause>, recs: seq<Recorded>, goal: seq<Clause>,
                           all: seq<Recorded>)
    requires k <= |cs| && Counters.SourceClauses(cs)
  {
    var (more, later) := Counters.CountClauses(pos, cs[k..], k, |recs|);
    done + more == goal && recs + later == all
  }

  lemma CountingStart(pos: int, cs: seq<Clause>, recs: seq<Recorded>)
    requires Counters.SourceClauses(cs)
    ensures var (goal, added) := Counters.CountClauses(pos, cs, 0, |recs|);
      Counting(pos, cs, 0, [], recs, goal, recs + added)
  {
    hide Counters.CountClauses;
    assert cs[0..] == cs;
    var goal := Counters.CountClauses(pos, cs, 0, |recs|).0;
    assert [] + goal == goal;
  }

  lemma CountingStep(pos: int, cs: seq<Clause>, k: nat, done: seq<Clause>, recs: seq<Recorded>, goal: seq<Clause>,
                     all: seq<Recorded>)
    requires k < |cs| && Counters.SourceClauses(cs) && Counters.SourceClause(cs[k])
    requires Counting(pos, cs, k, done, recs, goal, all)
    ensures var c := cs[k];
      var (body, added) := Counters.AddCounters(c.pos, ClauseEnd(c), c.body, false, |recs|, Into(pos, k));
      Counting(pos, cs, k + 1, done + [Clause(c.pos, c.colon, body)], recs + added, goal, all)
  {
    hide Counters.AddCounters;
    var c := cs[k];
    var (body, added) := Counters.AddCounters(c.pos, ClauseEnd(c), c.body, false, |recs|, Into(pos, k));
    assert cs[k..][1..] == cs[k + 1..];
    var (more, later) := Counters.CountClauses(pos, cs[k + 1..], k + 1, |recs + added|);
    Assoc(done, [Clause(c.pos, c.colon, body)], more);
    Assoc(recs, added, later);
  }

  lemma CountingEnd(pos: int, cs: seq<Clause>, done: seq<Clause>, recs: seq<Recorded>, goal: seq<Clause>,
                    all: seq<Recorded>)
    requires Counters.SourceClauses(cs) && Counting(pos, cs, |cs|, done, recs, goal, all)
    ensures done == goal && recs == all
  {
  }

  /** What the loop of addCounters has still to do leads to the result. */
  ghost predicate Adding(rest: seq<Item>, start: int, blockEnd: int, extend: bool, done: seq<Item>, recs: seq<Recorded>,
                         items: seq<Item>, all: seq<Recorded>)
    requires Counters.AllDo(rest)
  {
    if rest == [] then done == items && recs == all
    else
      var (more, later) := Counters.AddToBlocks(start, blockEnd, rest, extend, |recs|);
      done + more == items && recs + later == all
  }

  lemma AddingStart(rest: seq<Item>, start: int, blockEnd: int, extend: bool, recs: seq<Recorded>)
    requires Counters.AllDo(rest) && rest != []
    ensures var (items, added) := Counters.AddToBlocks(start, blockEnd, rest, extend, |recs|);
      Adding(rest, start, blockEnd, extend, [], recs, items, recs + added)
  {
    hide Counters.AddToBlocks;
    var (items, added) := Counters.AddToBlocks(start, blockEnd, rest, extend, |recs|);
    assert [] + items == items;
  }

  lemma AddingEnd(rest: seq<Item>, start: int, blockEnd: int, extend: bool, done: seq<Item>, recs: seq<Recorded>,
                  items: seq<Item>, all: seq<Recorded>)
    requires rest == [] && Adding(rest, start, blockEnd, extend, done, recs, items, all)
    ensures done == items && recs == all
  {
  }

  lemma AddingStep(rest: seq<Item>, start: int, blockEnd: int, extend: bool, extend': bool, done: seq<Item>,
                   recs: seq<Recorded>, items: seq<Item>, all: seq<Recorded>, k: nat, end: int)
    requires Counters.AllDo(rest) && rest != [] && Adding(rest, start, blockEnd, extend, done, recs, items, all)
    requires 0 < k <= |rest| && forall i :: 0 <= i < k - 1 ==> !Counters.EndsBasicBlock(rest[i].stmt)
    requires k < |rest| ==> Counters.EndsBasicBlock(rest[k - 1].stmt)
    requires var last := rest[k - 1].stmt;
      && extend' == (extend && !Counters.EndsBasicBlock(last))
      && end == if extend' then blockEnd else Counters.Boundary(last)
    ensures var block := Counters.CoverBlock.CoverBlock(start, end, k);
      var here, head := [Counters.Recorded.Recorded(block, Enter(Pos(rest[0].stmt)))], [Count(|recs|)];
      var next := if k < |rest| then Pos(rest[k].stmt) else start;
      && (start != end ==> Adding(rest[k..], next, blockEnd, extend', done + head + rest[..k], recs + here, items, all))
      && (start == end ==> Adding(rest[k..], next, blockEnd, extend', done + rest[..k], recs, items, all))
  {
    hide Adding, Counters.BasicBlock, Counters.EndsBasicBlock, Counters.Boundary, Counters.BasicLength;
    BlockIs(start, blockEnd, rest, extend, k, end);
    AddingAfter(rest, start, blockEnd, extend, extend', done, recs, items, all);
    Assoc(done, [Count(|recs|)], rest[..k]);
    assert [] + rest[..k] == rest[..k] && recs + [] == recs;
  }

  lemma Assoc<T>(a: seq<T>, b: seq<T>, c: seq<T>)
    ensures a + (b + c) == (a + b) + c
  {
  }

  lemma AddingAfter(rest: seq<Item>, start: int, blockEnd: int, extend: bool, extend': bool, done: seq<Item>,
                    recs: seq<Recorded>, items: seq<Item>, all: seq<Recorded>)
    requires Counters.AllDo(rest) && rest != [] && Adding(rest, start, blockEnd, extend, done, recs, items, all)
    requires Counters.BasicLength(rest) < |rest| ==> !extend'
    ensures var k := Counters.BasicLength(rest);
      Adding(rest[k..], if k < |rest| then Pos(rest[k].stmt) else start, blockEnd, extend',
             done + Counters.HeadItems(start, blockEnd, rest, extend, |recs|),
             recs + Counters.BasicBlock(start, blockEnd, rest, extend), items, all)
  {
    hide Adding, Counters.AddToBlocks, Counters.BasicBlock, Counters.BasicLength, Counters.HeadItems;
    var k := Counters.BasicLength(rest);
    Counters.AddStep(start, blockEnd, rest, extend, |recs|);
    var here := Counters.BasicBlock(start, blockEnd, rest, extend);
    var head := Counters.HeadItems(start, blockEnd, rest, extend, |recs|);
    var goal := Counters.AddToBlocks(start, blockEnd, rest, extend, |recs|);
    AddingIs(rest, start, blockEnd, extend, done, recs, items, all);
    if k < |rest| {
      var next := Pos(rest[k].stmt);
      var (more, later) := Counters.AddToBlocks(next, blockEnd, rest[k..], false, |recs| + |here|);
      Assoc(done, head, more);
      Assoc(recs, here, later);
      assert |recs + here| == |recs| + |here| && rest[k..] != [];
      AddingIs(rest[k..], next, blockEnd, false, done + head, recs + here, items, all);
    } else {
      assert rest[k..] == [];
      AddingNothing([], start, blockEnd, extend', done + head, recs + here);
    }
  }

  lemma AddingIs(rest: seq<Item>, start: int, blockEnd: int, extend: bool, done: seq<Item>, recs: seq<Recorded>,
                 items: seq<Item>, all: seq<Recorded>)
    requires Counters.AllDo(rest) && rest != []
    ensures var goal := Counters.AddToBlocks(start, blockEnd, rest, extend, |recs|);
      Adding(rest, start, blockEnd, extend, done, recs, items, all) <==> done + goal.0 == items && recs + goal.1 == all
  {
    hide Counters.AddToBlocks;
  }

  lemma AddingNothing(rest: seq<Item>, start: int, blockEnd: int, extend: bool, done: seq<Item>, recs: seq<Recorded>)
    requires rest == []
    ensures Adding(rest, start, blockEnd, extend, done, recs, done, recs)
  {
  }

  /** The length of the basic block, from what the scan found. */
  lemma {:induction false} LengthIs(list: seq<Item>, k: nat)
    requires Counters.AllDo(list) && 0 < k <= |list|
    requires forall i :: 0 <= i < k - 1 ==> !Counters.EndsBasicBlock(list[i].stmt)
    requires k < |list| ==> Counters.EndsBasicBlock(list[k - 1].stmt)
    ensures Counters.BasicLength(list) == k
  {
    if k > 1 {
      LengthIs(list[1..], k - 1);
    }
  }

  /** The recorded block, from what the scan found. */
  lemma BlockIs(pos: int, blockEnd: int, list: seq<Item>, extend: bool, k: nat, end: int)
    requires Counters.AllDo(list) && 0 < k <= |list|
    requires forall i :: 0 <= i < k - 1 ==> !Counters.EndsBasicBlock(list[i].stmt)
    requires k < |list| ==> Counters.EndsBasicBlock(list[k - 1].stmt)
    requires var last := list[k - 1].stmt;
      end == if extend && !Counters.EndsBasicBlock(last) then blockEnd else Counters.Boundary(last)
    ensures Counters.BasicLength(list) == k
    ensures Counters.BasicBlock(pos, blockEnd, list, extend) ==
            if pos != end then
              [Counters.Recorded.Recorded(Counters.CoverBlock.CoverBlock(pos, end, k), Enter(Pos(list[0].stmt)))]
            else []
  {
    LengthIs(list, k);
  }

  // ---------- what instrumenting a file guarantees ----------

  /** Calling function f, from the beginning. */
  function Run(m: Machine, f: nat, fuel: nat): Result
    requires f < |m.funcs|
  {
    ExecList(m, m.funcs[f].list, [Call(f)], fuel)
  }

  function Instrumented(m: Machine): Machine
    requires Counters.SourceFuncs(m.funcs)
  {
    m.(funcs := Counters.VisitFuncs(m.funcs, 0, 0).0)
  }

  function Blocks(m: Machine): seq<Recorded>
    requires Counters.SourceFuncs(m.funcs)
  {
    Counters.VisitFuncs(m.funcs, 0, 0).1
  }

  /** The instrumented program does what the program does: the same events in the same order, and
      it stops the same way. */
  lemma MeaningPreserved(m: Machine, f: nat, fuel: nat)
    requires Counters.SourceFuncs(m.funcs) && f < |m.funcs|
    ensures |Instrumented(m).funcs| == |m.funcs|
    ensures Run(Instrumented(m), f, fuel).out == Run(m, f, fuel).out
    ensures Erase(Run(Instrumented(m), f, fuel).trace) == Run(m, f, fuel).trace
  {
    hide Counters.VisitFuncs, StripList, Erase, Counters.SourceItems;
    var m' := Instrumented(m);
    Counters.VisitFuncsStrip(m.funcs, 0, 0);
    assert StripFuncs(m'.funcs) == StripFuncs(m.funcs);
    assert StripFuncs(m'.funcs)[f] == StripFuncs(m.funcs)[f];
    ListAlike(m, m.funcs[f].list, [Call(f)], fuel);
    ListAlike(m', m'.funcs[f].list, [Call(f)], fuel);
    assert [] + [Call(f)] == [Call(f)];
    EraseOne([], Call(f));
    assert Erase([]) == [] by {
      EraseNothing();
    }
    ListUncounted(m, m.funcs[f].list, [Call(f)], fuel);
  }

  lemma EraseNothing()
    ensures Erase([]) == []
  {
  }

  /** Each counter ends up equal to the number of times the first statement of its block began in
      the run of the program itself; for a body without statements, to the number of times it was
      entered. */
  lemma CountersCount(m: Machine, f: nat, fuel: nat, c: nat, lo: int)
    requires Counters.SourceFuncs(m.funcs) && PlacedFuncs(m.funcs, lo) && f < |m.funcs| && c < |Blocks(m)|
    ensures |Instrumented(m).funcs| == |m.funcs|
    ensures Tally(Run(Instrumented(m), f, fuel).trace, Counted(c)) == Tally(Run(m, f, fuel).trace, Blocks(m)[c].first)
  {
    hide Counters.VisitFuncs, Counters.SourceItems, PlacedFuncs, PairedBody, ExecList;
    var m' := Instrumented(m);
    var e := Blocks(m)[c].first;
    MeaningPreserved(m, f, fuel);
    FuncsPaired(m.funcs, 0, 0, c, e, lo);
    forall g | 0 <= g < |m'.funcs|
      ensures PairedBody(Call(g), m'.funcs[g].list, c, e)
    {
      assert 0 + g == g;
    }
    BodyCounts(m', Call(f), m'.funcs[f].list, [], fuel, c, e);
    assert [] + [Call(f)] == [Call(f)];
    TallyErased(Run(m', f, fuel).trace, e);
  }

  lemma {:induction false} TallyErased(tr: Trace, e: Event)
    requires !e.Counted?
    ensures Tally(Erase(tr), e) == Tally(tr, e)
  {
    if tr != [] {
      var front, last := tr[..|tr| - 1], tr[|tr| - 1];
      TallyErased(front, e);
      assert (Erase(front) + [last])[..|Erase(front)|] == Erase(front);
    }
  }

  /** The recorded blocks of a file do not overlap: in the order of their starts, each ends before
      the next begins, which is what addVariables checks of itself. */
  lemma BlocksDisjoint(m: Machine, i: nat, j: nat, lo: int)
    requires Counters.SourceFuncs(m.funcs) && PlacedFuncs(m.funcs, lo)
    requires i != j && i < |Blocks(m)| && j < |Blocks(m)|
    ensures Blocks(m)[i].block.start < Blocks(m)[i].block.end
    ensures Blocks(m)[i].block.start <= Blocks(m)[j].block.start ==> Blocks(m)[i].block.end <= Blocks(m)[j].block.start
  {
    hide Counters.VisitFuncs, Counters.SourceItems, PlacedFuncs;
    FuncsBlocks(m.funcs, 0, 0, lo);
    var first, second := if i < j then i else j, if i < j then j else i;
    assert Apart(Blocks(m)[first].block, Blocks(m)[second].block);
  }

  /** The statements of a file are covered: each by exactly one block, unless it is bare, and by none
      then; every list has a block that starts where the list does. */
  lemma StatementsCovered(m: Machine, lo: int, b: Body, x: nat)
    requires Counters.SourceFuncs(m.funcs) && PlacedFuncs(m.funcs, lo) && AllSpaced(FuncBodies(m.funcs))
    requires b in FuncBodies(m.funcs)
    ensures x < |b.list| ==> (InSome(Blocks(m), b.list[x]) <==> !Bare(b, x))
    ensures forall j, k ::
      (x < |b.list| && 0 <= j < |Blocks(m)| && 0 <= k < |Blocks(m)| && In(Blocks(m)[j].block, b.list[x]) &&
       In(Blocks(m)[k].block, b.list[x])) ==> j == k
    ensures exists k ::
      0 <= k < |Blocks(m)| && Blocks(m)[k].block.start == b.start && (b.list == [] ==> Empty(Blocks(m)[k], b))
  {
    hide Covers, PlacedFuncs, AllSpaced, FuncBodies, Counters.VisitFuncs, Counters.SourceItems, In, Bare, Disjoint;
    FuncsCover(m.funcs, 0, 0, lo);
    FuncsBlocks(m.funcs, 0, 0, lo);
    ListStarts(Blocks(m), FuncBodies(m.funcs), b);
    if x < |b.list| {
      CoveredOnce(Blocks(m), FuncBodies(m.funcs), b, x);
    }
  }

  /** A bare statement: in { if c { } { } } the second block of the list has no block around it. */
  lemma BareUncovered() returns (fs: seq<Block>, b: Body)
    ensures Counters.SourceFuncs(fs) && PlacedFuncs(fs, 0) && AllSpaced(FuncBodies(fs)) && b in FuncBodies(fs)
    ensures |b.list| == 2 && !InSome(Counters.VisitFuncs(fs, 0, 0).1, b.list[1])
  {
    var cond, bare := Do(If(1, Block(3, [], 4), NoElse)), Do(BlockStmt(Block(6, [], 7)));
    var list := [cond, bare];
    fs := [Block(0, list, 9)];
    b := Body(0, 10, list, true);
    BareParts(cond, bare, list);
    assert Placed(cond.stmt) && Placed(bare.stmt);
    assert list[1..] == [bare] && [bare][1..] == [];
    assert End(bare.stmt) == 8 && Span(bare.stmt) == 8 && PlacedList([], 8, 10) && PlacedItem(bare, 5);
    assert PlacedList([bare], 5, 10);
    assert End(cond.stmt) == 5 && Span(cond.stmt) == 5 && PlacedItem(cond, 1);
    assert PlacedList(list, 1, 10) && PlacedFuncs(fs[1..], 10);
    assert FuncBodies(fs) == BlockBodies(0, 10, list) + FuncBodies(fs[1..]);
    assert BlockBodies(0, 10, list) == {b} + ListBodies(list);
    FuncsCover(fs, 0, 0, 0);
    FuncsBlocks(fs, 0, 0, 0);
    CoveredOnce(Counters.VisitFuncs(fs, 0, 0).1, FuncBodies(fs), b, 1);
  }

  lemma BareParts(cond: Item, bare: Item, list: seq<Item>)
    requires cond == Do(If(1, Block(3, [], 4), NoElse)) && bare == Do(BlockStmt(Block(6, [], 7)))
    requires list == [cond, bare]
    ensures ListBodies(list) == {Body(3, 5, [], true), Body(6, 8, [], true)}
    ensures Counters.SourceItem(cond) && Counters.SourceItem(bare)
  {
    assert list[1..] == [bare] && list[1..][1..] == [];
    assert ListBodies([]) == {};
    assert BlockBodies(3, 5, []) == {Body(3, 5, [], true)} && BlockBodies(6, 8, []) == {Body(6, 8, [], true)};
    assert StmtBodies(cond.stmt) == BlockBodies(3, 5, []) + ElseBodies(5, NoElse);
    assert StmtBodies(bare.stmt) == BlockBodies(6, 8, []);
    assert ListBodies([bare]) == StmtBodies(bare.stmt) + ListBodies([bare][1..]);
    assert ListBodies(list) == StmtBodies(cond.stmt) + ListBodies(list[1..]);
  }

  /** And each recorded block is that of the statements i to j - 1 of some list: as many as it says,
      of which only the last may lead elsewhere, and it covers these and no others of the file. */
  lemma BlocksAreBasic(m: Machine, lo: int, k: nat)
    requires Counters.SourceFuncs(m.funcs) && PlacedFuncs(m.funcs, lo) && AllSpaced(FuncBodies(m.funcs))
    requires k < |Blocks(m)|
    ensures exists b, i: nat, j: nat ::
      Holds(Blocks(m)[k], FuncBodies(m.funcs), b, i, j) && Blocks(m)[k].block.numStmt == j - i
  {
    hide PlacedFuncs, AllSpaced, FuncBodies, Counters.VisitFuncs, Counters.SourceItems, In, Covered;
    FuncsCover(m.funcs, 0, 0, lo);
    assert Known(Blocks(m)[k], FuncBodies(m.funcs));
  }

  // ---------- a program without counters counts nothing ----------

  predicate Uncounted(tr: Trace) {
    Erase(tr) == tr
  }

  lemma UncountedOne(tr: Trace, e: Event)
    requires Uncounted(tr) && !e.Counted?
    ensures Uncounted(tr + [e])
  {
    EraseOne(tr, e);
  }

  lemma {:induction false} EvalUncounted(m: Machine, pos: int, tr: Trace, fuel: nat)
    requires Counters.SourceFuncs(m.funcs) && Uncounted(tr)
    ensures Uncounted(Eval(m, pos, tr, fuel).trace)
    decreases fuel, 0, 0, 0
  {
    hide Erase, Uncounted, Counters.SourceItems, ListHeight, ExecList;
    if fuel > 0 {
      var k := m.calls(Erase(tr), pos);
      if 0 < k <= |m.funcs| {
        UncountedOne(tr, Call(k - 1));
        ListUncounted(m, m.funcs[k - 1].list, tr + [Call(k - 1)], fuel - 1);
        var r := ExecList(m, m.funcs[k - 1].list, tr + [Call(k - 1)], fuel - 1);
        if !r.out.Panicked? && !r.out.Stuck? {
          EvalUncounted(m, pos, r.trace, fuel - 1);
        }
      }
    }
  }

  lemma {:induction false} ListUncounted(m: Machine, l: seq<Item>, tr: Trace, fuel: nat)
    requires Counters.SourceFuncs(m.funcs) && Counters.AllDo(l) && Counters.SourceItems(l) && Uncounted(tr)
    ensures Uncounted(ExecList(m, l, tr, fuel).trace)
    decreases fuel, ListHeight(l) + 1, 2, |l|
  {
    hide Uncounted, ExecStmt, Counters.Source, Counters.SourceFuncs;
    if l != [] {
      assert Counters.SourceItem(l[0]);
      StmtUncounted(m, l[0].stmt, "", tr, fuel);
      ListUncounted(m, l[1..], ExecStmt(m, l[0].stmt, "", tr, fuel).trace, fuel);
    }
  }

  lemma {:induction false} StmtUncounted(m: Machine, s: Stmt, lab: string, tr: Trace, fuel: nat)
    requires Counters.SourceFuncs(m.funcs) && Counters.Source(s) && Uncounted(tr)
    ensures Uncounted(ExecStmt(m, s, lab, tr, fuel).trace)
    decreases fuel, Height(s) + 1, 1, 0
  {
    hide Erase, Uncounted, ExecList, ExecElse, ExecLoop, ExecClauses, Eval, Counters.SourceItems, Counters.SourceFuncs;
    hide Counters.SourceClauses;
    var tr1 := tr + [Enter(Pos(s))];
    UncountedOne(tr, Enter(Pos(s)));
    match s
    case Basic(pos, _, _) =>
      EvalUncounted(m, pos, tr1, fuel);
    case BlockStmt(b) =>
      ListUncounted(m, b.list, tr1, fuel);
    case If(pos, b, els) =>
      EvalUncounted(m, pos, tr1, fuel);
      var r := Eval(m, pos, tr1, fuel);
      UncountedOne(r.trace, Into(pos, 1));
      UncountedOne(r.trace, Into(pos, 0));
      ListUncounted(m, b.list, r.trace + [Into(pos, 1)], fuel);
      ElseUncounted(m, els, r.trace + [Into(pos, 0)], fuel);
    case Loop(pos, b) =>
      LoopUncounted(m, pos, b, lab, tr1, fuel);
    case Switch(pos, _, cs, _) =>
      EvalUncounted(m, pos, tr1, fuel);
      var r := Eval(m, pos, tr1, fuel);
      UncountedOne(r.trace, Into(pos, |cs|));
      var k := m.picks(Erase(r.trace), pos);
      if k < |cs| {
        ClauseHeights(cs, k);
        SourceFrom(cs, k);
        ClausesUncounted(m, pos, cs[k..], k, r.trace, fuel);
      }
    case Labeled(_, l, inner) =>
      StmtUncounted(m, inner, l, tr1, fuel);
  }

  lemma SourceFrom(cs: seq<Clause>, k: nat)
    requires k <= |cs| && Counters.SourceClauses(cs)
    ensures Counters.SourceClauses(cs[k..])
  {
    hide Counters.SourceClause;
  }

  lemma {:induction false} ElseUncounted(m: Machine, els: Else, tr: Trace, fuel: nat)
    requires Counters.SourceFuncs(m.funcs) && Counters.SourceElse(els) && Uncounted(tr)
    ensures Uncounted(ExecElse(m, els, tr, fuel).trace)
    decreases fuel, ElseHeight(els) + 1, 4, 0
  {
    hide Uncounted, ExecStmt, ExecList, Counters.SourceItems, Counters.SourceFuncs;
    match els
    case NoElse =>
    case ElseIf(s) =>
      StmtUncounted(m, s, "", tr, fuel);
    case ElseBlock(b) =>
      ListUncounted(m, b.list, tr, fuel);
  }

  lemma {:induction false} LoopUncounted(m: Machine, pos: int, b: Block, lab: string, tr: Trace, fuel: nat)
    requires Counters.SourceFuncs(m.funcs) && Counters.AllDo(b.list) && Counters.SourceItems(b.list) && Uncounted(tr)
    ensures Uncounted(ExecLoop(m, pos, b, lab, tr, fuel).trace)
    decreases fuel, ListHeight(b.list) + 1, 4, 0
  {
    hide Erase, Uncounted, ExecList, Eval, Counters.SourceItems, Counters.SourceFuncs;
    if fuel > 0 {
      EvalUncounted(m, pos, tr, fuel);
      var r := Eval(m, pos, tr, fuel);
      UncountedOne(r.trace, Into(pos, 1));
      UncountedOne(r.trace, Into(pos, 0));
      ListUncounted(m, b.list, r.trace + [Into(pos, 1)], fuel);
      var q := ExecList(m, b.list, r.trace + [Into(pos, 1)], fuel);
      LoopUncounted(m, pos, b, lab, q.trace, fuel - 1);
    }
  }

  lemma {:induction false} ClausesUncounted(m: Machine, pos: int, cs: seq<Clause>, k: nat, tr: Trace, fuel: nat)
    requires Counters.SourceFuncs(m.funcs) && cs != [] && Counters.SourceClauses(cs) && Uncounted(tr)
    ensures Uncounted(ExecClauses(m, pos, cs, k, tr, fuel).trace)
    decreases fuel, ClausesHeight(cs) + 1, 4, |cs|
  {
    hide Uncounted, ExecList, Counters.SourceItems, Counters.SourceFuncs;
    assert Counters.SourceClause(cs[0]);
    UncountedOne(tr, Into(pos, k));
    ListUncounted(m, cs[0].body, tr + [Into(pos, k)], fuel);
    var r := ExecList(m, cs[0].body, tr + [Into(pos, k)], fuel);
    if |cs| > 1 {
      SourceFrom(cs, 1);
      ClausesUncounted(m, pos, cs[1..], k + 1, r.trace, fuel);
    }
  }
}
