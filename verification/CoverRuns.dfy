/** The statements the coverage tool rewrites (cmd/cover/cover.go). Function literals and goto
    are left out, so a statement is told apart by where it starts. */
module CoverSyntax {

  datatype Jump = Break | Continue | Fallthrough

  datatype Action = Expression | PanicCall | Return | Branch(jump: Jump, lab: string)

  /** Loop stands for the for and range statements, Switch for the two switches and select. */
  datatype Stmt =
    | Basic(pos: int, end: int, action: Action)
    | BlockStmt(body: Block)
    | If(pos: int, body: Block, els: Else)
    | Loop(pos: int, body: Block)
    | Switch(pos: int, lbrace: int, clauses: seq<Clause>, rbrace: int)
    | Labeled(pos: int, lab: string, stmt: Stmt)

  datatype Else = NoElse | ElseIf(stmt: Stmt) | ElseBlock(block: Block)

  datatype Block = Block(lbrace: int, list: seq<Item>, rbrace: int)

  datatype Clause = Clause(pos: int, colon: int, body: seq<Item>)

  /** An entry of a statement list: a statement of the source or an added counter update. */
  datatype Item = Do(stmt: Stmt) | Count(c: nat)

  function Max(a: nat, b: nat): nat {
    if a < b then b else a
  }

  /** How deeply statements are nested. */
  function Height(s: Stmt): nat {
    match s
    case Basic(_, _, _) => 0
    case BlockStmt(b) => 1 + ListHeight(b.list)
    case If(_, b, els) => 1 + Max(ListHeight(b.list), ElseHeight(els))
    case Loop(_, b) => 1 + ListHeight(b.list)
    case Switch(_, _, cs, _) => 1 + ClausesHeight(cs)
    case Labeled(_, _, inner) => 1 + Height(inner)
  }

  function ElseHeight(els: Else): nat {
    match els
    case NoElse => 0
    case ElseIf(s) => Height(s)
    case ElseBlock(b) => ListHeight(b.list)
  }

  function ItemHeight(item: Item): (h: nat)
    ensures h == if item.Do? then Height(item.stmt) else 0
  {
    match item
    case Do(s) => Height(s)
    case Count(_) => 0
  }

  function ListHeight(l: seq<Item>): nat {
    if l == [] then 0 else Max(ItemHeight(l[0]), ListHeight(l[1..]))
  }

  function ClausesHeight(cs: seq<Clause>): nat {
    if cs == [] then 0 else Max(ListHeight(cs[0].body), ClausesHeight(cs[1..]))
  }

  lemma OneHeight(s: Stmt)
    ensures ListHeight([Do(s)]) == Height(s)
  {
    var l := [Do(s)];
    assert ListHeight(l) == Max(ItemHeight(l[0]), ListHeight(l[1..]));
  }

  lemma {:induction false} ListHeightConcat(a: seq<Item>, b: seq<Item>)
    ensures ListHeight(a + b) == Max(ListHeight(a), ListHeight(b))
  {
    if a == [] {
      assert a + b == b;
    } else {
      assert (a + b)[1..] == a[1..] + b;
      ListHeightConcat(a[1..], b);
    }
  }

  function Pos(s: Stmt): int {
    if s.BlockStmt? then s.body.lbrace else s.pos
  }

  function BlockEnd(b: Block): int {
    b.rbrace + 1
  }

  function End(s: Stmt): int {
    match s
    case Basic(_, end, _) => end
    case BlockStmt(b) => BlockEnd(b)
    case If(_, b, els) => (match els
                           case NoElse => BlockEnd(b)
                           case ElseIf(e) => End(e)
                           case ElseBlock(e) => BlockEnd(e))
    case Loop(_, b) => BlockEnd(b)
    case Switch(_, _, _, rbrace) => rbrace + 1
    case Labeled(_, _, inner) => End(inner)
  }

  /** The end of a clause: its last statement, or its colon. */
  function ClauseEnd(c: Clause): int {
    if c.body != [] && c.body[|c.body| - 1].Do? then End(c.body[|c.body| - 1].stmt) else c.colon
  }
}

/** Running statements. What a program does next depends on what it has done so far: its
    variables are a function of the events and of its input. Two functions stand for them, one
    saying which calls an evaluation makes and one which branch is taken. Counters are no part of
    what a program can see. */
module CoverRuns {
  import opened CoverSyntax

  /** Enter: a statement begins. Into: one branch of the statement at pos is taken. */
  datatype Event = Enter(pos: int) | Into(pos: int, branch: nat) | Call(f: nat) | Counted(c: nat)

  type Trace = seq<Event>

  datatype Outcome = Normal | Jumped(jump: Jump, lab: string) | Returned | Panicked | Stuck

  datatype Result = Result(out: Outcome, trace: Trace)

  datatype Machine = Machine(funcs: seq<Block>, calls: (Trace, int) -> nat, picks: (Trace, int) -> nat)

  /** A trace without the counter updates. */
  function Erase(tr: Trace): Trace {
    if tr == [] then []
    else
      var front, last := Erase(tr[..|tr| - 1]), tr[|tr| - 1];
      if last.Counted? then front else front + [last]
  }

  lemma EraseOne(tr: Trace, e: Event)
    ensures Erase(tr + [e]) == if e.Counted? then Erase(tr) else Erase(tr) + [e]
  {
    assert (tr + [e])[..|tr|] == tr;
  }

  /** Evaluating the expressions of the statement at pos: calls of functions, one after the
      other, then a value or a panic. The fuel bounds calls and loop turns. */
  function Eval(m: Machine, pos: int, tr: Trace, fuel: nat): Result
    decreases fuel, 0, 0, 0
  {
    if fuel == 0 then Result(Stuck, tr)
    else
      var k := m.calls(Erase(tr), pos);
      if k == 0 then Result(Panicked, tr)
      else if k > |m.funcs| then Result(Normal, tr)
      else
        var r := ExecList(m, m.funcs[k - 1].list, tr + [Call(k - 1)], fuel - 1);
        if r.out.Panicked? || r.out.Stuck? then r else Eval(m, pos, r.trace, fuel - 1)
  }

  function ExecList(m: Machine, l: seq<Item>, tr: Trace, fuel: nat): Result
    decreases fuel, ListHeight(l) + 1, 2, |l|
  {
    if l == [] then Result(Normal, tr)
    else
      var r := if l[0].Count? then Result(Normal, tr + [Counted(l[0].c)]) else ExecStmt(m, l[0].stmt, "", tr, fuel);
      if r.out != Normal then r else ExecList(m, l[1..], r.trace, fuel)
  }

  /** lab is the label of the statement, or empty. */
  function ExecStmt(m: Machine, s: Stmt, lab: string, tr: Trace, fuel: nat): Result
    decreases fuel, Height(s) + 1, 1, 0
  {
    var tr := tr + [Enter(Pos(s))];
    match s
    case Basic(pos, _, action) =>
      if action.Branch? then Result(Jumped(action.jump, action.lab), tr)
      else
        var r := Eval(m, pos, tr, fuel);
        if r.out != Normal || action.Expression? then r
        else Result(if action.Return? then Returned else Panicked, r.trace)
    case BlockStmt(b) => ExecList(m, b.list, tr, fuel)
    case If(pos, b, els) =>
      var r := Eval(m, pos, tr, fuel);
      if r.out != Normal then r
      else if m.picks(Erase(r.trace), pos) != 0 then ExecList(m, b.list, r.trace + [Into(pos, 1)], fuel)
      else ExecElse(m, els, r.trace + [Into(pos, 0)], fuel)
    case Loop(pos, b) => ExecLoop(m, pos, b, lab, tr, fuel)
    case Switch(pos, _, cs, _) =>
      var r := Eval(m, pos, tr, fuel);
      if r.out != Normal then r
      else
        var k := m.picks(Erase(r.trace), pos);
        if k >= |cs| then Result(Normal, r.trace + [Into(pos, |cs|)])
        else (
          ClauseHeights(cs, k);
          var q := ExecClauses(m, pos, cs[k..], k, r.trace, fuel);
          if q.out == Jumped(Break, "") then Result(Normal, q.trace) else q)
    case Labeled(_, l, inner) =>
      var r := ExecStmt(m, inner, l, tr, fuel);
      if r.out == Jumped(Break, l) then Result(Normal, r.trace) else r
  }

  function ExecElse(m: Machine, els: Else, tr: Trace, fuel: nat): Result
    decreases fuel, ElseHeight(els) + 1, 3, 0
  {
    match els
    case NoElse => Result(Normal, tr)
    case ElseIf(s) => ExecStmt(m, s, "", tr, fuel)
    case ElseBlock(b) => ExecList(m, b.list, tr, fuel)
  }

  function ExecLoop(m: Machine, pos: int, b: Block, lab: string, tr: Trace, fuel: nat): Result
    decreases fuel, ListHeight(b.list) + 1, 3, 0
  {
    if fuel == 0 then Result(Stuck, tr)
    else
      var r := Eval(m, pos, tr, fuel);
      if r.out != Normal then r
      else if m.picks(Erase(r.trace), pos) == 0 then Result(Normal, r.trace + [Into(pos, 0)])
      else
        var q := ExecList(m, b.list, r.trace + [Into(pos, 1)], fuel);
        if q.out == Normal || q.out == Jumped(Continue, "") || q.out == Jumped(Continue, lab) then
          ExecLoop(m, pos, b, lab, q.trace, fuel - 1)
        else if q.out == Jumped(Break, "") then Result(Normal, q.trace)
        else q
  }

  /** The clause cs[0], which is clause k of its statement; fallthrough goes on to the next. */
  function ExecClauses(m: Machine, pos: int, cs: seq<Clause>, k: nat, tr: Trace, fuel: nat): Result
    requires cs != []
    decreases fuel, ClausesHeight(cs) + 1, 3, |cs|
  {
    var r := ExecList(m, cs[0].body, tr + [Into(pos, k)], fuel);
    if r.out == Jumped(Fallthrough, "") && |cs| > 1 then ExecClauses(m, pos, cs[1..], k + 1, r.trace, fuel)
    else r
  }

  lemma {:induction false} ClauseHeights(cs: seq<Clause>, k: nat)
    requires k <= |cs|
    ensures ClausesHeight(cs[k..]) <= ClausesHeight(cs)
  {
    if k > 0 {
      ClauseHeights(cs[1..], k - 1);
      assert cs[1..][k - 1..] == cs[k..];
    } else {
      assert cs[0..] == cs;
    }
  }

  // ---------- stripping ----------

  /** The statement without counters, in a form that does not show whether an else holds an if or
      a block around it, nor where the braces of bodies are. */
  function StripStmt(s: Stmt): Stmt
    ensures Height(StripStmt(s)) == Height(s) && Pos(StripStmt(s)) == Pos(s)
  {
    match s
    case Basic(_, _, _) => s
    case BlockStmt(b) => BlockStmt(Block(b.lbrace, StripList(b.list), 0))
    case If(pos, b, els) => If(pos, Block(0, StripList(b.list), 0), StripElse(els))
    case Loop(pos, b) => Loop(pos, Block(0, StripList(b.list), 0))
    case Switch(pos, _, cs, _) => Switch(pos, 0, StripClauses(cs), 0)
    case Labeled(pos, l, inner) => Labeled(pos, l, StripStmt(inner))
  }

  function StripElse(els: Else): Else
    ensures ElseHeight(StripElse(els)) == ElseHeight(els)
  {
    match els
    case NoElse => NoElse
    case ElseIf(s) =>
      OneHeight(StripStmt(s));
      ElseBlock(Block(0, [Do(StripStmt(s))], 0))
    case ElseBlock(b) => ElseBlock(Block(0, StripList(b.list), 0))
  }

  function StripItem(item: Item): (r: seq<Item>)
    ensures ListHeight(r) == ItemHeight(item)
  {
    match item
    case Count(_) => []
    case Do(s) =>
      OneHeight(StripStmt(s));
      [Do(StripStmt(s))]
  }

  function StripList(l: seq<Item>): (r: seq<Item>)
    ensures ListHeight(r) == ListHeight(l)
  {
    if l == [] then []
    else
      ListHeightConcat(StripItem(l[0]), StripList(l[1..]));
      StripItem(l[0]) + StripList(l[1..])
  }

  function StripClauses(cs: seq<Clause>): (r: seq<Clause>)
    ensures ClausesHeight(r) == ClausesHeight(cs) && |r| == |cs|
  {
    if cs == [] then [] else [Clause(0, 0, StripList(cs[0].body))] + StripClauses(cs[1..])
  }

  function StripFuncs(fs: seq<Block>): (r: seq<Block>)
    ensures |r| == |fs| && forall k :: 0 <= k < |fs| ==> r[k] == Block(0, StripList(fs[k].list), 0)
  {
    seq(|fs|, k requires 0 <= k < |fs| => Block(0, StripList(fs[k].list), 0))
  }

  function Stripped(m: Machine): Machine {
    m.(funcs := StripFuncs(m.funcs))
  }

  // ---------- counters cannot be seen ----------

  lemma {:induction false} EraseTwice(tr: Trace)
    ensures Erase(Erase(tr)) == Erase(tr)
  {
    if tr != [] {
      EraseTwice(tr[..|tr| - 1]);
      EraseOne(Erase(tr[..|tr| - 1]), tr[|tr| - 1]);
    }
  }

  /** q did what r did, as far as a program can see. */
  predicate Alike(r: Result, q: Result) {
    q.out == r.out && q.trace == Erase(r.trace)
  }

  lemma {:induction false} EvalAlike(m: Machine, pos: int, tr: Trace, fuel: nat)
    ensures Alike(Eval(m, pos, tr, fuel), Eval(Stripped(m), pos, Erase(tr), fuel))
    decreases fuel, 0, 0, 0
  {
    hide Erase, StripList, ListHeight;
    EraseTwice(tr);
    if fuel > 0 {
      var k := m.calls(Erase(tr), pos);
      if 0 < k <= |m.funcs| {
        EraseOne(tr, Call(k - 1));
        ListAlike(m, m.funcs[k - 1].list, tr + [Call(k - 1)], fuel - 1);
        var r := ExecList(m, m.funcs[k - 1].list, tr + [Call(k - 1)], fuel - 1);
        if !r.out.Panicked? && !r.out.Stuck? {
          EvalAlike(m, pos, r.trace, fuel - 1);
        }
      }
    }
  }

  lemma {:induction false} ListAlike(m: Machine, l: seq<Item>, tr: Trace, fuel: nat)
    ensures Alike(ExecList(m, l, tr, fuel), ExecList(Stripped(m), StripList(l), Erase(tr), fuel))
    decreases fuel, ListHeight(l) + 1, 2, |l|
  {
    hide Erase, Stripped, StripStmt;
    if l != [] {
      if l[0].Count? {
        EraseOne(tr, Counted(l[0].c));
        ListAlike(m, l[1..], tr + [Counted(l[0].c)], fuel);
        assert StripList(l) == StripList(l[1..]);
      } else {
        StmtAlike(m, l[0].stmt, "", tr, fuel);
        var r := ExecStmt(m, l[0].stmt, "", tr, fuel);
        if r.out == Normal {
          ListAlike(m, l[1..], r.trace, fuel);
        }
        assert StripList(l)[0] == Do(StripStmt(l[0].stmt)) && StripList(l)[1..] == StripList(l[1..]);
      }
    }
  }

  lemma {:induction false} StmtAlike(m: Machine, s: Stmt, lab: string, tr: Trace, fuel: nat)
    ensures Alike(ExecStmt(m, s, lab, tr, fuel), ExecStmt(Stripped(m), StripStmt(s), lab, Erase(tr), fuel))
    decreases fuel, Height(s) + 1, 1, 0
  {
    hide Erase, Stripped, StripList, StripElse, StripClauses, ExecList, ExecElse, ExecLoop, ExecClauses, Eval;
    EraseOne(tr, Enter(Pos(s)));
    var tr1 := tr + [Enter(Pos(s))];
    EraseTwice(tr1);
    SameMachine(m);
    match s
    case Basic(pos, _, _) =>
      EvalAlike(m, pos, tr1, fuel);
    case BlockStmt(b) =>
      ListAlike(m, b.list, tr1, fuel);
    case If(pos, b, els) =>
      EvalAlike(m, pos, tr1, fuel);
      var r := Eval(m, pos, tr1, fuel);
      EraseTwice(r.trace);
      EraseOne(r.trace, Into(pos, 1));
      EraseOne(r.trace, Into(pos, 0));
      ListAlike(m, b.list, r.trace + [Into(pos, 1)], fuel);
      ElseAlike(m, els, r.trace + [Into(pos, 0)], fuel);
    case Loop(pos, b) =>
      LoopAlike(m, pos, b, lab, tr1, fuel);
    case Switch(pos, _, cs, _) =>
      SwitchAlike(m, s, lab, tr, fuel);
    case Labeled(_, l, inner) =>
      StmtAlike(m, inner, l, tr1, fuel);
  }

  lemma {:induction false} SwitchAlike(m: Machine, s: Stmt, lab: string, tr: Trace, fuel: nat)
    requires s.Switch?
    ensures Alike(ExecStmt(m, s, lab, tr, fuel), ExecStmt(Stripped(m), StripStmt(s), lab, Erase(tr), fuel))
    decreases fuel, Height(s) + 1, 0, 0
  {
    hide Erase, Stripped, StripList, StripElse, StripClauses, ExecList, ExecElse, ExecLoop, ExecClauses, Eval;
    var pos, cs := s.pos, s.clauses;
    EraseOne(tr, Enter(pos));
    var tr1 := tr + [Enter(pos)];
    EvalAlike(m, pos, tr1, fuel);
    var r := Eval(m, pos, tr1, fuel);
    EraseTwice(r.trace);
    EraseOne(r.trace, Into(pos, |cs|));
    var k := m.picks(Erase(r.trace), pos);
    SameMachine(m);
    if r.out == Normal && k < |cs| {
      ClauseHeights(cs, k);
      StripFrom(cs, k);
      ClausesAlike(m, pos, cs[k..], k, r.trace, fuel);
    }
  }

  lemma SameMachine(m: Machine)
    ensures Stripped(m).calls == m.calls && Stripped(m).picks == m.picks
  {
  }

  lemma {:induction false} StripFrom(cs: seq<Clause>, k: nat)
    requires k <= |cs|
    ensures StripClauses(cs)[k..] == StripClauses(cs[k..])
  {
    if k > 0 {
      StripFrom(cs[1..], k - 1);
      assert cs[1..][k - 1..] == cs[k..];
      assert StripClauses(cs)[k..] == StripClauses(cs)[1..][k - 1..];
    } else {
      assert cs[0..] == cs;
    }
  }

  lemma {:induction false} ElseAlike(m: Machine, els: Else, tr: Trace, fuel: nat)
    ensures Alike(ExecElse(m, els, tr, fuel), ExecElse(Stripped(m), StripElse(els), Erase(tr), fuel))
    decreases fuel, ElseHeight(els) + 1, 3, 0
  {
    hide Erase, Stripped, StripList, StripStmt, ExecStmt;
    match els
    case NoElse =>
    case ElseIf(s) =>
      StmtAlike(m, s, "", tr, fuel);
      OneStmt(Stripped(m), StripStmt(s), Erase(tr), fuel);
    case ElseBlock(b) =>
      ListAlike(m, b.list, tr, fuel);
  }

  /** A list of one statement does what the statement does. */
  lemma OneStmt(m: Machine, s: Stmt, tr: Trace, fuel: nat)
    ensures ExecList(m, [Do(s)], tr, fuel) == ExecStmt(m, s, "", tr, fuel)
  {
    hide ExecStmt;
    var l := [Do(s)];
    var r := ExecStmt(m, s, "", tr, fuel);
    assert l[1..] == [] && ExecList(m, [], r.trace, fuel) == Result(Normal, r.trace);
    assert ExecList(m, l, tr, fuel) == if r.out != Normal then r else ExecList(m, l[1..], r.trace, fuel);
  }

  lemma {:induction false} LoopAlike(m: Machine, pos: int, b: Block, lab: string, tr: Trace, fuel: nat)
    ensures Alike(ExecLoop(m, pos, b, lab, tr, fuel),
                  ExecLoop(Stripped(m), pos, Block(0, StripList(b.list), 0), lab, Erase(tr), fuel))
    decreases fuel, ListHeight(b.list) + 1, 3, 0
  {
    hide Erase, Stripped, StripList, ExecList, Eval;
    SameMachine(m);
    if fuel > 0 {
      EvalAlike(m, pos, tr, fuel);
      var r := Eval(m, pos, tr, fuel);
      EraseTwice(r.trace);
      EraseOne(r.trace, Into(pos, 1));
      EraseOne(r.trace, Into(pos, 0));
      ListAlike(m, b.list, r.trace + [Into(pos, 1)], fuel);
      var q := ExecList(m, b.list, r.trace + [Into(pos, 1)], fuel);
      LoopAlike(m, pos, b, lab, q.trace, fuel - 1);
    }
  }

  lemma {:induction false} ClausesAlike(m: Machine, pos: int, cs: seq<Clause>, k: nat, tr: Trace, fuel: nat)
    requires cs != []
    ensures Alike(ExecClauses(m, pos, cs, k, tr, fuel),
                  ExecClauses(Stripped(m), pos, StripClauses(cs), k, Erase(tr), fuel))
    decreases fuel, ClausesHeight(cs) + 1, 3, |cs|
  {
    hide Erase, Stripped, StripList, ExecList;
    EraseOne(tr, Into(pos, k));
    ListAlike(m, cs[0].body, tr + [Into(pos, k)], fuel);
    assert StripClauses(cs)[0].body == StripList(cs[0].body) && StripClauses(cs)[1..] == StripClauses(cs[1..]);
    var r := ExecList(m, cs[0].body, tr + [Into(pos, k)], fuel);
    if |cs| > 1 {
      ClausesAlike(m, pos, cs[1..], k + 1, r.trace, fuel);
    }
  }

  // ---------- counters count ----------

  /** How often e happened. */
  function Tally(tr: Trace, e: Event): nat {
    if tr == [] then 0 else Tally(tr[..|tr| - 1], e) + if tr[|tr| - 1] == e then 1 else 0
  }

  /** By how much counter c is ahead of the event it counts. */
  function Ahead(tr: Trace, c: nat, e: Event): int {
    Tally(tr, Counted(c)) - Tally(tr, e)
  }

  lemma AheadOne(tr: Trace, x: Event, c: nat, e: Event)
    ensures Ahead(tr + [x], c, e) == Ahead(tr, c, e) + (if x == Counted(c) then 1 else 0) - if x == e then 1 else 0
  {
    assert (tr + [x])[..|tr|] == tr;
  }

  /** In the list, counter c stands exactly before the statement whose beginning is e; or is all
      there is in a body whose entry is e. */
  ghost predicate PairedList(l: seq<Item>, c: nat, e: Event)
    decreases ListHeight(l) + 1, 2, |l|
  {
    if l == [] then true
    else if l[0] == Count(c) then
      var rest := l[1..];
      assert ListHeight(rest) <= ListHeight(l);
      rest != [] && rest[0].Do? && PairedStmt(rest[0].stmt, true, c, e) && PairedList(rest[1..], c, e)
    else (l[0].Do? ==> PairedStmt(l[0].stmt, false, c, e)) && PairedList(l[1..], c, e)
  }

  /** counted: counter c has just been increased for s. */
  ghost predicate PairedStmt(s: Stmt, counted: bool, c: nat, e: Event)
    decreases Height(s) + 1, 1, 0
  {
    if s.BlockStmt? && s.body.list == [Count(c)] then !counted && e == Enter(Pos(s))
    else (counted <==> e == Enter(Pos(s))) && PairedInside(s, c, e)
  }

  ghost predicate PairedInside(s: Stmt, c: nat, e: Event)
    decreases Height(s) + 1, 0, 0
  {
    match s
    case Basic(_, _, _) => true
    case BlockStmt(b) => PairedList(b.list, c, e)
    case If(pos, b, els) => PairedBody(Into(pos, 1), b.list, c, e) && PairedElse(Into(pos, 0), els, c, e)
    case Loop(pos, b) => e != Into(pos, 0) && PairedBody(Into(pos, 1), b.list, c, e)
    case Switch(pos, _, cs, _) => e != Into(pos, |cs|) && PairedClauses(pos, cs, 0, c, e)
    case Labeled(_, _, inner) => PairedStmt(inner, false, c, e)
  }

  ghost predicate PairedElse(entry: Event, els: Else, c: nat, e: Event)
    decreases ElseHeight(els) + 1, 4, 0
  {
    match els
    case NoElse => e != entry
    case ElseIf(s) => e != entry && PairedStmt(s, false, c, e)
    case ElseBlock(b) => PairedBody(entry, b.list, c, e)
  }

  ghost predicate PairedBody(entry: Event, l: seq<Item>, c: nat, e: Event)
    decreases ListHeight(l) + 1, 3, 0
  {
    if l == [Count(c)] then e == entry else e != entry && PairedList(l, c, e)
  }

  ghost predicate PairedClauses(pos: int, cs: seq<Clause>, k: nat, c: nat, e: Event)
    decreases ClausesHeight(cs) + 1, 4, |cs|
  {
    cs == [] || (PairedBody(Into(pos, k), cs[0].body, c, e) && PairedClauses(pos, cs[1..], k + 1, c, e))
  }

  ghost predicate PairedMachine(m: Machine, c: nat, e: Event) {
    !e.Counted? && forall f :: 0 <= f < |m.funcs| ==> PairedBody(Call(f), m.funcs[f].list, c, e)
  }

  lemma {:induction false} EvalCounts(m: Machine, pos: int, tr: Trace, fuel: nat, c: nat, e: Event)
    requires PairedMachine(m, c, e)
    ensures Ahead(Eval(m, pos, tr, fuel).trace, c, e) == Ahead(tr, c, e)
    decreases fuel, 0, 0, 0
  {
    hide Erase, PairedBody, Ahead, ListHeight, ExecList;
    if fuel > 0 {
      var k := m.calls(Erase(tr), pos);
      if 0 < k <= |m.funcs| {
        BodyCounts(m, Call(k - 1), m.funcs[k - 1].list, tr, fuel - 1, c, e);
        var r := ExecList(m, m.funcs[k - 1].list, tr + [Call(k - 1)], fuel - 1);
        if !r.out.Panicked? && !r.out.Stuck? {
          EvalCounts(m, pos, r.trace, fuel - 1, c, e);
        }
      }
    }
  }

  lemma {:induction false} BodyCounts(m: Machine, entry: Event, l: seq<Item>, tr: Trace, fuel: nat, c: nat, e: Event)
    requires PairedMachine(m, c, e) && PairedBody(entry, l, c, e) && !entry.Counted?
    ensures Ahead(ExecList(m, l, tr + [entry], fuel).trace, c, e) == Ahead(tr, c, e)
    decreases fuel, ListHeight(l) + 1, 3, 0
  {
    hide PairedMachine, Ahead, ListHeight, PairedList;
    AheadOne(tr, entry, c, e);
    if l == [Count(c)] {
      AheadOne(tr + [entry], Counted(c), c, e);
      assert l[1..] == [];
      assert ExecList(m, [], tr + [entry] + [Counted(c)], fuel).trace == tr + [entry] + [Counted(c)];
    } else {
      ListCounts(m, l, tr + [entry], fuel, c, e);
    }
  }

  lemma {:induction false} ListCounts(m: Machine, l: seq<Item>, tr: Trace, fuel: nat, c: nat, e: Event)
    requires PairedMachine(m, c, e) && PairedList(l, c, e)
    ensures Ahead(ExecList(m, l, tr, fuel).trace, c, e) == Ahead(tr, c, e)
    decreases fuel, ListHeight(l) + 1, 2, |l|
  {
    hide Ahead, PairedStmt, ExecStmt;
    if l != [] {
      if l[0].Count? {
        var tr1 := tr + [Counted(l[0].c)];
        AheadOne(tr, Counted(l[0].c), c, e);
        if l[0].c == c {
          var rest := l[1..];
          var s := rest[0].stmt;
          var r := ExecStmt(m, s, "", tr1, fuel);
          assert ListHeight(rest) <= ListHeight(l) && Height(s) <= ListHeight(rest);
          StmtCounts(m, s, "", tr1, fuel, true, c, e);
          ListCounts(m, rest[1..], r.trace, fuel, c, e);
          assert ExecList(m, rest, tr1, fuel) == if r.out != Normal then r else ExecList(m, rest[1..], r.trace, fuel);
          assert ExecList(m, l, tr, fuel) == ExecList(m, rest, tr1, fuel);
        } else {
          ListCounts(m, l[1..], tr1, fuel, c, e);
        }
      } else {
        StmtCounts(m, l[0].stmt, "", tr, fuel, false, c, e);
        var r := ExecStmt(m, l[0].stmt, "", tr, fuel);
        ListCounts(m, l[1..], r.trace, fuel, c, e);
      }
    }
  }

  lemma {:induction false} StmtCounts(m: Machine, s: Stmt, lab: string, tr: Trace, fuel: nat, counted: bool, c: nat,
                                      e: Event)
    requires PairedMachine(m, c, e) && PairedStmt(s, counted, c, e)
    ensures Ahead(ExecStmt(m, s, lab, tr, fuel).trace, c, e) == Ahead(tr, c, e) - if counted then 1 else 0
    decreases fuel, Height(s) + 1, 1, 0
  {
    hide Erase, Ahead, PairedMachine, PairedList, PairedBody, PairedElse, PairedClauses;
    hide ExecList, ExecElse, ExecLoop, ExecClauses, Eval;
    var tr1 := tr + [Enter(Pos(s))];
    AheadOne(tr, Enter(Pos(s)), c, e);
    match s
    case Basic(pos, _, _) =>
      EvalCounts(m, pos, tr1, fuel, c, e);
    case BlockStmt(b) =>
      if b.list == [Count(c)] {
        CountAlone(m, c, tr1, fuel);
        AheadOne(tr1, Counted(c), c, e);
      } else {
        ListCounts(m, b.list, tr1, fuel, c, e);
      }
    case If(pos, b, els) =>
      EvalCounts(m, pos, tr1, fuel, c, e);
      var r := Eval(m, pos, tr1, fuel);
      BodyCounts(m, Into(pos, 1), b.list, r.trace, fuel, c, e);
      ElseCounts(m, Into(pos, 0), els, r.trace, fuel, c, e);
    case Loop(pos, b) =>
      LoopCounts(m, pos, b, lab, tr1, fuel, c, e);
    case Switch(pos, _, cs, _) =>
      EvalCounts(m, pos, tr1, fuel, c, e);
      var r := Eval(m, pos, tr1, fuel);
      AheadOne(r.trace, Into(pos, |cs|), c, e);
      var k := m.picks(Erase(r.trace), pos);
      if k < |cs| {
        ClauseHeights(cs, k);
        PairedFrom(pos, cs, 0, k, c, e);
        ClausesCount(m, pos, cs[k..], k, r.trace, fuel, c, e);
      }
    case Labeled(_, l, inner) =>
      StmtCounts(m, inner, l, tr1, fuel, false, c, e);
  }

  lemma CountAlone(m: Machine, c: nat, tr: Trace, fuel: nat)
    ensures ExecList(m, [Count(c)], tr, fuel) == Result(Normal, tr + [Counted(c)])
  {
    var l := [Count(c)];
    assert l[1..] == [] && ExecList(m, [], tr + [Counted(c)], fuel) == Result(Normal, tr + [Counted(c)]);
    assert ExecList(m, l, tr, fuel) == ExecList(m, l[1..], tr + [Counted(c)], fuel);
  }

  lemma {:induction false} PairedFrom(pos: int, cs: seq<Clause>, first: nat, k: nat, c: nat, e: Event)
    requires k <= |cs| && PairedClauses(pos, cs, first, c, e)
    ensures PairedClauses(pos, cs[k..], first + k, c, e)
  {
    if k > 0 {
      PairedFrom(pos, cs[1..], first + 1, k - 1, c, e);
      assert cs[1..][k - 1..] == cs[k..];
    } else {
      assert cs[0..] == cs;
    }
  }

  lemma {:induction false} ElseCounts(m: Machine, entry: Event, els: Else, tr: Trace, fuel: nat, c: nat, e: Event)
    requires PairedMachine(m, c, e) && PairedElse(entry, els, c, e) && !entry.Counted?
    ensures Ahead(ExecElse(m, els, tr + [entry], fuel).trace, c, e) == Ahead(tr, c, e)
    decreases fuel, ElseHeight(els) + 1, 4, 0
  {
    hide Ahead, PairedMachine, PairedStmt, PairedBody, ExecStmt, ExecList;
    AheadOne(tr, entry, c, e);
    match els
    case NoElse =>
    case ElseIf(s) =>
      StmtCounts(m, s, "", tr + [entry], fuel, false, c, e);
    case ElseBlock(b) =>
      BodyCounts(m, entry, b.list, tr, fuel, c, e);
  }

  lemma {:induction false} LoopCounts(m: Machine, pos: int, b: Block, lab: string, tr: Trace, fuel: nat, c: nat,
                                      e: Event)
    requires PairedMachine(m, c, e) && e != Into(pos, 0) && PairedBody(Into(pos, 1), b.list, c, e)
    ensures Ahead(ExecLoop(m, pos, b, lab, tr, fuel).trace, c, e) == Ahead(tr, c, e)
    decreases fuel, ListHeight(b.list) + 1, 4, 0
  {
    hide Erase, Ahead, PairedMachine, PairedBody, ExecList, Eval;
    if fuel > 0 {
      EvalCounts(m, pos, tr, fuel, c, e);
      var r := Eval(m, pos, tr, fuel);
      AheadOne(r.trace, Into(pos, 0), c, e);
      BodyCounts(m, Into(pos, 1), b.list, r.trace, fuel, c, e);
      var q := ExecList(m, b.list, r.trace + [Into(pos, 1)], fuel);
      LoopCounts(m, pos, b, lab, q.trace, fuel - 1, c, e);
    }
  }

  lemma {:induction false} ClausesCount(m: Machine, pos: int, cs: seq<Clause>, k: nat, tr: Trace, fuel: nat, c: nat,
                                        e: Event)
    requires PairedMachine(m, c, e) && cs != [] && PairedClauses(pos, cs, k, c, e)
    ensures Ahead(ExecClauses(m, pos, cs, k, tr, fuel).trace, c, e) == Ahead(tr, c, e)
    decreases fuel, ClausesHeight(cs) + 1, 4, |cs|
  {
    hide Ahead, PairedMachine, PairedBody, ExecList;
    BodyCounts(m, Into(pos, k), cs[0].body, tr, fuel, c, e);
    var r := ExecList(m, cs[0].body, tr + [Into(pos, k)], fuel);
    if |cs| > 1 {
      ClausesCount(m, pos, cs[1..], k + 1, r.trace, fuel, c, e);
    }
  }
}
