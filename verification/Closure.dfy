/** Items with lookahead sets, and closure (cmd/goyacc/yacc.go). */
module Lookaheads {
  import opened Grammars
  import opened Productions
  import opened Nullable
  import opened Firsts
  import opened Items

  /** What setup, cpres, cempty and cpfir have worked out. */
  datatype Facts = Facts(g: Grammar, pres: seq<seq<seq<int>>>, pempty: seq<int>, first: seq<set<nat>>)

  ghost predicate FactsOk(f: Facts) {
    WellFormed(f.g) && AllProductions(f.g, f.pres) && ExactEmpty(f.g, f.pempty) && ExactFirst(f.g, f.first)
  }

  /** The part of FactsOk that computing with the facts needs. */
  ghost predicate Sized(f: Facts) {
    && WellFormed(f.g) && AllProductions(f.g, f.pres)
    && |f.pempty| == |f.first| == f.g.nnonter + 1
    && forall i, t: nat :: 0 <= i < |f.first| && t in f.first[i] ==> t <= f.g.ntokens
  }

  /** FIRST of rest followed by any of la, the way closure walks over rest. */
  ghost function RestLook(f: Facts, rest: seq<int>, la: set<nat>): set<nat> {
    if rest == [] || rest[0] <= 0 then la
    else if rest[0] < NTBASE then {rest[0]}
    else if rest[0] - NTBASE < |f.first| == |f.pempty| then
      f.first[rest[0] - NTBASE] + (if f.pempty[rest[0] - NTBASE] == 0 then {} else RestLook(f, rest[1..], la))
    else {}
  }

  lemma {:induction false} RestLookMonotone(f: Facts, rest: seq<int>, la: set<nat>, la': set<nat>)
    requires la <= la'
    ensures RestLook(f, rest, la) <= RestLook(f, rest, la')
  {
    if rest != [] {
      RestLookMonotone(f, rest[1..], la, la');
    }
  }

  lemma {:induction false} RestLookTokens(f: Facts, rest: seq<int>, la: set<nat>)
    requires Sized(f) && forall t :: t in la ==> t <= f.g.ntokens
    requires forall s :: s in rest ==> s <= 0 || IsToken(f.g, s) || IsNonter(f.g, s)
    ensures forall t :: t in RestLook(f, rest, la) ==> t <= f.g.ntokens
  {
    if rest != [] {
      assert rest[0] in rest;
      RestLookTokens(f, rest[1..], la);
    }
  }

  /** What t in FIRST(form followed by la) means: t begins something form derives, or
      form derives nothing and t is in la. */
  ghost predicate Follows(g: Grammar, form: seq<int>, la: set<nat>, t: nat) {
    || (IsToken(g, t) && exists w :: Derives(g, form, w) && |w| > 0 && w[0] == t)
    || (t in la && Derives(g, form, []))
  }

  lemma {:induction false} ForestFirst(g: Grammar, form: seq<int>, w: seq<int>) returns (u: seq<int>, v: seq<int>)
    requires form != [] && Derives(g, form, w)
    ensures Derives(g, [form[0]], u) && Derives(g, form[1..], v) && w == u + v
  {
    var n: nat :| DerivesIn(g, form, w, n);
    var ts := DerivationForest(g, form, w, n);
    assert Roots(g, ts)[0] == form[0] && ts[0] in ts;
    u, v := Yield(ts[0]), Yields(ts[1..]);
    TreeDerives(g, ts[0]);
    assert Roots(g, ts[1..]) == form[1..];
    ForestDerives(g, ts[1..]);
  }

  lemma TokenStays(g: Grammar, s: int, w: seq<int>)
    requires WellFormed(g) && s < NTBASE && Derives(g, [s], w)
    ensures w == [s]
  {
    var t := TreeOf(g, s, w);
    if t.Node? {
      RuleShape(g, t.rule);
    }
  }

  /** closure's walk computes FIRST of the rest: sound and complete. */
  lemma {:induction false} RestLookExact(f: Facts, form: seq<int>, la: set<nat>, t: nat)
    requires FactsOk(f) && forall s :: s in form ==> IsToken(f.g, s) || IsNonter(f.g, s)
    ensures t in RestLook(f, form, la) <==> Follows(f.g, form, la, t)
    decreases |form|
  {
    if form == [] {
      DerivesNothing(f.g, []);
      if exists w :: Derives(f.g, form, w) && |w| > 0 {
        var w :| Derives(f.g, form, w) && |w| > 0;
        EmptyStays(f.g, w);
      }
    } else {
      var s, rest := form[0], form[1..];
      assert s in form && form == [s] + rest;
      RestLookExact(f, rest, la, t);
      FollowsUnfold(f, s, rest, la, t);
      SymbolFacts(f, s, t);
    }
  }

  lemma SymbolFacts(f: Facts, s: int, t: nat)
    requires FactsOk(f) && (IsToken(f.g, s) || IsNonter(f.g, s))
    ensures s < NTBASE ==> !DerivesEmpty(f.g, s) && (Begins(f.g, s, t) <==> t == s)
    ensures s >= NTBASE ==> (DerivesEmpty(f.g, s) <==> f.pempty[s - NTBASE] != 0)
    ensures s >= NTBASE ==> (IsToken(f.g, t) && Begins(f.g, s, t) <==> t in f.first[s - NTBASE])
  {
    if s < NTBASE {
      if DerivesEmpty(f.g, s) {
        TokenStays(f.g, s, []);
      }
      if Begins(f.g, s, t) {
        var w :| Derives(f.g, [s], w) && |w| > 0 && w[0] == t;
        TokenStays(f.g, s, w);
      }
      BeginsItself(f.g, s);
    } else {
      assert NTBASE + (s - NTBASE) == s;
    }
  }

  lemma EmptyStays(g: Grammar, w: seq<int>)
    requires Derives(g, [], w)
    ensures w == []
  {
    var n: nat :| DerivesIn(g, [], w, n);
    var ts := DerivationForest(g, [], w, n);
    assert ts == [];
  }

  lemma FollowsUnfold(f: Facts, s: int, rest: seq<int>, la: set<nat>, t: nat)
    requires FactsOk(f) && (IsToken(f.g, s) || IsNonter(f.g, s))
    ensures Follows(f.g, [s] + rest, la, t) <==>
      (IsToken(f.g, t) && Begins(f.g, s, t)) || (DerivesEmpty(f.g, s) && Follows(f.g, rest, la, t))
  {
    var g, form := f.g, [s] + rest;
    assert form[0] == s && form[1..] == rest;
    if Follows(g, form, la, t) {
      var w :| Derives(g, form, w) && ((IsToken(g, t) && |w| > 0 && w[0] == t) || (t in la && w == []));
      var u, v := ForestFirst(g, form, w);
      if u == [] {
        assert w == v;
      } else {
        assert w[0] == u[0];
      }
    }
    if IsToken(g, t) && Begins(g, s, t) {
      var u :| Derives(g, [s], u) && |u| > 0 && u[0] == t;
      DerivesNothing(g, rest);
      DerivesConcat(g, [s], u, rest, rest);
      assert (u + rest)[0] == t;
    }
    if DerivesEmpty(g, s) && Follows(g, rest, la, t) {
      var w :| Derives(g, rest, w) && ((IsToken(g, t) && |w| > 0 && w[0] == t) || (t in la && w == []));
      DerivesConcat(g, [s], [], rest, w);
      assert [] + w == w;
    }
  }

  /** The symbols after the one that follows the dot. */
  ghost function RestOf(g: Grammar, it: Lr0): seq<int>
    requires ValidItem(g, it) && it.dot < |Rhs(g, it.rule)|
  {
    Rhs(g, it.rule)[it.dot + 1..]
  }

  /** The lookaheads that the item passes on to the productions of the symbol after its dot. */
  ghost function PassesOn(f: Facts, it: Lr0, la: set<nat>): set<nat> {
    if ValidItem(f.g, it) && it.dot < |Rhs(f.g, it.rule)| then RestLook(f, RestOf(f.g, it), la) else {}
  }

  /** An LR(1) item set: items with their lookahead sets. */
  type LookMap = map<Lr0, set<nat>>

  /** Closed under the LR(1) closure rule. */
  ghost predicate ClosedMap(f: Facts, m: LookMap) {
    forall it, r: nat :: it in m && Introduces(f.g, it, r) ==>
      Lr0(r, 0) in m && PassesOn(f, it, m[it]) <= m[Lr0(r, 0)]
  }

  ghost predicate Introduces(g: Grammar, it: Lr0, r: nat) {
    ValidItem(g, it) && HasRule(g, r) && Next(g, it) >= NTBASE && Lhs(g, r) == Next(g, it)
  }
}

/** The working sets wsets and the procedure closure that fills them. */
module WorkingSets {
  import opened Grammars
  import opened Productions
  import opened Items
  import opened Lookaheads

  datatype Pitem = Pitem(prod: seq<int>, off: int, first: int, prodno: int)

  datatype Item = Item(pitem: Pitem, look: set<nat>)

  datatype Wset = Wset(pitem: Pitem, flag: int, ws: set<nat>)

  // ------------------------------------------------------------------ representation

  /** The item a Pitem stands for. Rule 0 is kept whole, the others without their left side. */
  function ItemOf(p: Pitem): Lr0 {
    if p.prodno <= 0 then Lr0(0, if p.off > 0 then p.off - 1 else 0)
    else Lr0(p.prodno, if p.off >= 0 then p.off else 0)
  }

  ghost function PitemOf(g: Grammar, it: Lr0): Pitem
    requires ValidItem(g, it)
  {
    if it.rule == 0 then Pitem(g.prods[0], it.dot + 1, Next(g, it), 0)
    else Pitem(Tail(g, it.rule), it.dot, Next(g, it), it.rule)
  }

  ghost predicate PitemOk(g: Grammar, p: Pitem) {
    ValidItem(g, ItemOf(p)) && p == PitemOf(g, ItemOf(p))
  }

  lemma PitemShape(g: Grammar, p: Pitem)
    requires WellFormed(g) && PitemOk(g, p)
    ensures 0 <= p.off < |p.prod| && p.first == p.prod[p.off] == Next(g, ItemOf(p))
    ensures p.prodno >= 0 && p.prodno == ItemOf(p).rule
    ensures p.first > 0 <==> ItemOf(p).dot < |Rhs(g, ItemOf(p).rule)|
    ensures p.first > 0 ==> IsToken(g, p.first) || NTBASE < p.first <= NTBASE + g.nnonter
    ensures p.first > 0 ==> p.off + 1 < |p.prod| && p.prod[p.off + 1..] == RestOf(g, ItemOf(p)) + [0 - p.prodno]
    ensures p.first <= 0 ==> p.first == 0 - p.prodno
  {
    var it := ItemOf(p);
    RuleShape(g, it.rule);
    if it.dot < |Rhs(g, it.rule)| {
      assert Rhs(g, it.rule)[it.dot] in Rhs(g, it.rule);
    }
    assert it.rule == 0 ==> g.prods[0] == [NTBASE] + Rhs(g, 0) + [0];
  }

  /** aryeq on productions and equal offsets mean the same item. */
  lemma SameItem(g: Grammar, p: Pitem, q: Pitem)
    requires WellFormed(g) && PitemOk(g, p) && PitemOk(g, q)
    ensures p.prod == q.prod && p.off == q.off <==> ItemOf(p) == ItemOf(q)
  {
    RuleShape(g, ItemOf(p).rule);
    RuleShape(g, ItemOf(q).rule);
    if p.prod == q.prod && p.off == q.off {
      assert p.prod[|p.prod| - 1] == q.prod[|q.prod| - 1];
    }
  }

  ghost predicate KernelShape(g: Grammar, kernel: seq<Item>) {
    && kernel != []
    && (forall k :: 0 <= k < |kernel| ==> PitemOk(g, kernel[k].pitem))
    && (forall k :: 0 <= k < |kernel| ==> ItemOf(kernel[k].pitem).dot > 0 || ItemOf(kernel[k].pitem) == StartItem)
    && (forall j, k :: 0 <= j < k < |kernel| ==> ItemOf(kernel[j].pitem) != ItemOf(kernel[k].pitem))
    && forall k, t :: 0 <= k < |kernel| && t in kernel[k].look ==> t <= g.ntokens
  }

  ghost function KernelSet(kernel: seq<Item>): set<Lr0> {
    set k | 0 <= k < |kernel| :: ItemOf(kernel[k].pitem)
  }

  ghost predicate Shape(g: Grammar, kernel: seq<Item>, ws: seq<Wset>) {
    && |kernel| <= |ws|
    && (forall k :: 0 <= k < |kernel| ==> ws[k].pitem == kernel[k].pitem)
    && (forall k :: 0 <= k < |ws| ==> PitemOk(g, ws[k].pitem))
    && (forall k :: |kernel| <= k < |ws| ==> ws[k].pitem.off == 0 && ws[k].pitem.prodno > 0)
    && (forall j, k :: 0 <= j < k < |ws| ==> ItemOf(ws[j].pitem) != ItemOf(ws[k].pitem))
    && (forall k :: 0 <= k < |ws| ==> ws[k].flag == 0 || ws[k].flag == 1)
    && forall k, t :: 0 <= k < |ws| && t in ws[k].ws ==> t <= g.ntokens
  }

  // ------------------------------------------------------------------ least closure

  ghost predicate Below(ws: seq<Wset>, m: LookMap) {
    forall k :: 0 <= k < |ws| ==> ItemOf(ws[k].pitem) in m && ws[k].ws <= m[ItemOf(ws[k].pitem)]
  }

  ghost predicate Includes(kernel: seq<Item>, m: LookMap) {
    forall k :: 0 <= k < |kernel| ==> ItemOf(kernel[k].pitem) in m && kernel[k].look <= m[ItemOf(kernel[k].pitem)]
  }

  /** Every closed set of LR(1) items that includes the kernel is above ws. */
  ghost predicate Justified(f: Facts, kernel: seq<Item>, ws: seq<Wset>) {
    forall m: LookMap :: ClosedMap(f, m) && Includes(kernel, m) ==> Below(ws, m)
  }

  /** What item w passes on; nothing when lookaheads are turned off. */
  ghost function Gives(f: Facts, nolook: bool, w: Wset): set<nat> {
    if nolook then {} else PassesOn(f, ItemOf(w.pitem), w.ws)
  }

  ghost predicate Has(ws: seq<Wset>, q: seq<int>, la: set<nat>) {
    exists v :: 0 <= v < |ws| && ws[v].pitem.off == 0 && ws[v].pitem.prod == q && la <= ws[v].ws
  }

  ghost predicate HasFirst(ws: seq<Wset>, ps: seq<seq<int>>, n: nat, la: set<nat>) {
    forall s :: 0 <= s < n && s < |ps| ==> Has(ws, ps[s], la)
  }

  /** The productions of the symbol after w's dot are in, with what w passes on. */
  ghost predicate Done(f: Facts, nolook: bool, ws: seq<Wset>, w: Wset) {
    var c := w.pitem.first - NTBASE;
    0 <= c < |f.pres| ==> HasFirst(ws, f.pres[c], |f.pres[c]|, Gives(f, nolook, w))
  }

  ghost predicate Settled(f: Facts, nolook: bool, ws: seq<Wset>) {
    forall k :: 0 <= k < |ws| && ws[k].flag == 0 ==> Done(f, nolook, ws, ws[k])
  }

  /** Unflagged items are done, or they have put what they pass on into clset. */
  ghost predicate Pending(f: Facts, nolook: bool, ws: seq<Wset>, c: int, clset: set<nat>) {
    forall k :: 0 <= k < |ws| && ws[k].flag == 0 ==>
      Done(f, nolook, ws, ws[k]) || (ws[k].pitem.first == c && Gives(f, nolook, ws[k]) <= clset)
  }

  ghost predicate KeepsLooks(kernel: seq<Item>, ws: seq<Wset>) {
    |kernel| <= |ws| && forall k :: 0 <= k < |kernel| ==> kernel[k].look <= ws[k].ws
  }

  /** What holds between two steps of closure. */
  ghost predicate Inv(f: Facts, kernel: seq<Item>, ws: seq<Wset>) {
    && Sized(f) && KernelShape(f.g, kernel) && Shape(f.g, kernel, ws)
    && KeepsLooks(kernel, ws) && Justified(f, kernel, ws)
  }

  ghost predicate Bigger(ws: seq<Wset>, ws': seq<Wset>) {
    && |ws| <= |ws'|
    && forall k :: 0 <= k < |ws| ==> ws'[k].pitem == ws[k].pitem && ws[k].ws <= ws'[k].ws
  }

  /** A step that adds to ws flags whatever it touches. */
  ghost predicate Adds(ws: seq<Wset>, ws': seq<Wset>) {
    && Bigger(ws, ws')
    && (forall k :: 0 <= k < |ws| ==> ws'[k] == ws[k] || ws'[k].flag == 1)
    && forall k :: |ws| <= k < |ws'| ==> ws'[k].flag == 1
  }

  /** A step that only resets flags. */
  ghost predicate SameLooks(ws: seq<Wset>, ws': seq<Wset>) {
    |ws| == |ws'| && forall k :: 0 <= k < |ws| ==> ws'[k].pitem == ws[k].pitem && ws'[k].ws == ws[k].ws
  }

  lemma HasStays(ws: seq<Wset>, ws': seq<Wset>, q: seq<int>, la: set<nat>, la': set<nat>)
    requires Bigger(ws, ws') && Has(ws, q, la) && la' <= la
    ensures Has(ws', q, la')
  {
    var v :| 0 <= v < |ws| && ws[v].pitem.off == 0 && ws[v].pitem.prod == q && la <= ws[v].ws;
    assert ws'[v].pitem.off == 0;
  }

  lemma HasFirstStays(ws: seq<Wset>, ws': seq<Wset>, ps: seq<seq<int>>, n: nat, la: set<nat>, la': set<nat>)
    requires Bigger(ws, ws') && HasFirst(ws, ps, n, la) && la' <= la
    ensures HasFirst(ws', ps, n, la')
  {
    forall s | 0 <= s < n && s < |ps|
      ensures Has(ws', ps[s], la')
    {
      HasStays(ws, ws', ps[s], la, la');
    }
  }

  lemma NothingFirst(ws: seq<Wset>, ps: seq<seq<int>>, la: set<nat>)
    ensures HasFirst(ws, ps, 0, la)
  {
  }

  lemma HasFirstMore(ws: seq<Wset>, ps: seq<seq<int>>, n: nat, la: set<nat>)
    requires n < |ps| && HasFirst(ws, ps, n, la) && Has(ws, ps[n], la)
    ensures HasFirst(ws, ps, n + 1, la)
  {
    hide Has;
  }

  lemma DoneStays(f: Facts, nolook: bool, ws: seq<Wset>, ws': seq<Wset>, w: Wset)
    requires Bigger(ws, ws') && Done(f, nolook, ws, w)
    ensures Done(f, nolook, ws', w)
  {
    var c := w.pitem.first - NTBASE;
    if 0 <= c < |f.pres| {
      HasFirstStays(ws, ws', f.pres[c], |f.pres[c]|, Gives(f, nolook, w), Gives(f, nolook, w));
    }
  }

  // ------------------------------------------------------------------ order

  ghost predicate EarlierIn(ws: seq<Wset>, n: nat, it: Lr0) {
    exists v :: 0 <= v < n && v < |ws| && ItemOf(ws[v].pitem) == it
  }

  /** The productions of one nonterminal that closure has added stand in rule order. */
  ghost predicate RulesInOrder(g: Grammar, base: nat, ws: seq<Wset>) {
    forall w, r: nat :: base <= w < |ws| && r < ItemOf(ws[w].pitem).rule && SameLeft(g, r, ItemOf(ws[w].pitem).rule) ==>
      EarlierIn(ws, w, Lr0(r, 0))
  }

  ghost predicate SameLeft(g: Grammar, r: nat, q: nat) {
    HasRule(g, r) && HasRule(g, q) && Lhs(g, r) == Lhs(g, q)
  }

  lemma OrderSame(g: Grammar, base: nat, ws: seq<Wset>, ws': seq<Wset>)
    requires RulesInOrder(g, base, ws) && |ws| == |ws'| && forall k :: 0 <= k < |ws| ==> ws'[k].pitem == ws[k].pitem
    ensures RulesInOrder(g, base, ws')
  {
    forall w, r: nat | base <= w < |ws'| && r < ItemOf(ws'[w].pitem).rule && SameLeft(g, r, ItemOf(ws'[w].pitem).rule)
      ensures EarlierIn(ws', w, Lr0(r, 0))
    {
      assert ItemOf(ws'[w].pitem) == ItemOf(ws[w].pitem);
      assert EarlierIn(ws, w, Lr0(r, 0));
      var v :| 0 <= v < w && ItemOf(ws[v].pitem) == Lr0(r, 0);
      assert ItemOf(ws'[v].pitem) == Lr0(r, 0);
    }
  }

  /** The rules before r for the same nonterminal have their entries. */
  ghost predicate EarlierRulesIn(g: Grammar, ws: seq<Wset>, r: nat) {
    forall q: nat :: q < r && SameLeft(g, q, r) ==> EarlierIn(ws, |ws|, Lr0(q, 0))
  }

  lemma OrderAppend(g: Grammar, base: nat, ws: seq<Wset>, x: Wset)
    requires RulesInOrder(g, base, ws) && EarlierRulesIn(g, ws, ItemOf(x.pitem).rule)
    ensures RulesInOrder(g, base, ws + [x])
  {
    var ws' := ws + [x];
    forall w, r: nat | base <= w < |ws'| && r < ItemOf(ws'[w].pitem).rule && SameLeft(g, r, ItemOf(ws'[w].pitem).rule)
      ensures EarlierIn(ws', w, Lr0(r, 0))
    {
      assert EarlierIn(ws, w, Lr0(r, 0));
      var v :| 0 <= v < w && v < |ws| && ItemOf(ws[v].pitem) == Lr0(r, 0);
      assert ItemOf(ws'[v].pitem) == Lr0(r, 0);
    }
  }

  /** The productions before the s-th one of a nonterminal belong to the earlier rules. */
  lemma EarlierReceived(f: Facts, kernel: seq<Item>, ws: seq<Wset>, i: nat, s: nat, la: set<nat>, r: nat)
    requires Inv(f, kernel, ws) && i < |f.pres| && s < |f.pres[i]| && HasFirst(ws, f.pres[i], s, la)
    requires i > 0 && IsProductionOf(f.g, i, f.pres[i][s], r)
    ensures EarlierRulesIn(f.g, ws, r)
  {
    RuleShape(f.g, r);
    forall q: nat | q < r && SameLeft(f.g, q, r)
      ensures EarlierIn(ws, |ws|, Lr0(q, 0))
    {
      RuleShape(f.g, q);
      assert IsProductionOf(f.g, i, Tail(f.g, q), q);
      assert Tail(f.g, q) in f.pres[i];
      var x :| 0 <= x < |f.pres[i]| && f.pres[i][x] == Tail(f.g, q);
      assert RuleNumber(f.pres[i][x]) == q && RuleNumber(f.pres[i][s]) == r && Rising(f.pres[i]);
      assert Has(ws, f.pres[i][x], la);
      var v :| 0 <= v < |ws| && ws[v].pitem.off == 0 && ws[v].pitem.prod == Tail(f.g, q);
      NewPitemOk(f.g, i, Tail(f.g, q), q);
      SameItem(f.g, ws[v].pitem, NewPitem(Tail(f.g, q)));
    }
  }

  // ------------------------------------------------------------------ measure

  ghost predicate Present(ws: seq<Wset>, it: Lr0, t: nat, top: nat) {
    exists k :: 0 <= k < |ws| && ItemOf(ws[k].pitem) == it && (t == top || t in ws[k].ws)
  }

  /** Items and lookaheads that could still be added. */
  ghost function MissingEntries(g: Grammar, ws: seq<Wset>): set<(nat, nat, nat)> {
    var top := g.ntokens + 1;
    set r: nat, d: nat, t: nat | r < |g.prods| && d <= |g.prods[r]| && t <= top && !Present(ws, Lr0(r, d), t, top) ::
      (r, d, t)
  }

  lemma LessMissing(g: Grammar, kernel: seq<Item>, ws: seq<Wset>, ws': seq<Wset>)
    requires WellFormed(g) && Bigger(ws, ws') && Shape(g, kernel, ws')
    ensures MissingEntries(g, ws') <= MissingEntries(g, ws)
    ensures |ws| < |ws'| || (exists k :: 0 <= k < |ws| && ws[k].ws != ws'[k].ws) ==>
      MissingEntries(g, ws') < MissingEntries(g, ws)
  {
    var top := g.ntokens + 1;
    forall r: nat, d: nat, t: nat | Present(ws, Lr0(r, d), t, top)
      ensures Present(ws', Lr0(r, d), t, top)
    {
      var k :| 0 <= k < |ws| && ItemOf(ws[k].pitem) == Lr0(r, d) && (t == top || t in ws[k].ws);
      assert ItemOf(ws'[k].pitem) == Lr0(r, d);
    }
    if |ws| < |ws'| {
      var it := ItemOf(ws'[|ws|].pitem);
      assert PitemOk(g, ws'[|ws|].pitem);
      assert Present(ws', it, top, top);
      assert !Present(ws, it, top, top);
      assert (it.rule, it.dot, top) in MissingEntries(g, ws);
    }
    if k :| 0 <= k < |ws| && ws[k].ws != ws'[k].ws {
      var t :| t in ws'[k].ws && t !in ws[k].ws;
      var it := ItemOf(ws'[k].pitem);
      assert PitemOk(g, ws'[k].pitem);
      assert Present(ws', it, t, top);
      forall j | 0 <= j < |ws| && ItemOf(ws[j].pitem) == it
        ensures j == k
      {
        assert ItemOf(ws'[j].pitem) == it;
      }
      assert !Present(ws, it, t, top);
      assert (it.rule, it.dot, t) in MissingEntries(g, ws);
    }
  }

  // ------------------------------------------------------------------ closing one symbol

  /** clset is below what every closed superset of the kernel gives the productions of c. */
  ghost predicate ClsetBelow(f: Facts, kernel: seq<Item>, c: int, clset: set<nat>) {
    forall m: LookMap, r: nat :: ClosedMap(f, m) && Includes(kernel, m) && HasRule(f.g, r) && Lhs(f.g, r) == c ==>
      Lr0(r, 0) in m && clset <= m[Lr0(r, 0)]
  }

  lemma GivesBelow(f: Facts, kernel: seq<Item>, ws: seq<Wset>, k: nat, c: int)
    requires Inv(f, kernel, ws) && k < |ws| && ws[k].pitem.first == c && c >= NTBASE
    ensures ClsetBelow(f, kernel, c, PassesOn(f, ItemOf(ws[k].pitem), ws[k].ws))
  {
    var it := ItemOf(ws[k].pitem);
    PitemShape(f.g, ws[k].pitem);
    forall m: LookMap, r: nat | ClosedMap(f, m) && Includes(kernel, m) && HasRule(f.g, r) && Lhs(f.g, r) == c
      ensures Lr0(r, 0) in m && PassesOn(f, it, ws[k].ws) <= m[Lr0(r, 0)]
    {
      assert Below(ws, m);
      assert Introduces(f.g, it, r);
      RestLookMonotone(f, RestOf(f.g, it), ws[k].ws, m[it]);
    }
  }

  /** Resetting flags keeps everything but the claim that unflagged items are done. */
  lemma ResetKeeps(f: Facts, kernel: seq<Item>, ws: seq<Wset>, ws': seq<Wset>)
    requires Inv(f, kernel, ws) && SameLooks(ws, ws') && forall k :: 0 <= k < |ws'| ==>
      ws'[k].flag == 0 || ws'[k].flag == 1
    ensures Inv(f, kernel, ws')
  {
    forall m: LookMap | ClosedMap(f, m) && Includes(kernel, m)
      ensures Below(ws', m)
    {
      assert Below(ws, m);
    }
  }

  lemma ResetPending(f: Facts, nolook: bool, ws: seq<Wset>, v: nat, c: int, clset: set<nat>, clset': set<nat>)
    requires v < |ws| && Pending(f, nolook, ws, c, clset) && clset <= clset'
    requires ws[v].pitem.first == c && Gives(f, nolook, ws[v]) <= clset'
    ensures Pending(f, nolook, ws[v := ws[v].(flag := 0)], c, clset')
  {
    var ws' := ws[v := ws[v].(flag := 0)];
    forall k | 0 <= k < |ws'| && ws'[k].flag == 0
      ensures Done(f, nolook, ws', ws'[k]) || (ws'[k].pitem.first == c && Gives(f, nolook, ws'[k]) <= clset')
    {
      if k != v && Done(f, nolook, ws, ws[k]) {
        DoneStays(f, nolook, ws, ws', ws[k]);
      }
    }
  }

  /** Adding to ws keeps pending items pending. */
  lemma AddsPending(f: Facts, nolook: bool, ws: seq<Wset>, ws': seq<Wset>, c: int, clset: set<nat>)
    requires Adds(ws, ws') && Pending(f, nolook, ws, c, clset)
    ensures Pending(f, nolook, ws', c, clset)
  {
    forall k | 0 <= k < |ws'| && ws'[k].flag == 0
      ensures Done(f, nolook, ws', ws'[k]) || (ws'[k].pitem.first == c && Gives(f, nolook, ws'[k]) <= clset)
    {
      if Done(f, nolook, ws, ws[k]) {
        DoneStays(f, nolook, ws, ws', ws[k]);
      }
    }
  }

  /** When every production of c has received clset, pending items are done. */
  lemma PendingSettled(f: Facts, nolook: bool, ws: seq<Wset>, c: int, clset: set<nat>)
    requires Pending(f, nolook, ws, c, clset) && 0 <= c - NTBASE < |f.pres|
    requires HasFirst(ws, f.pres[c - NTBASE], |f.pres[c - NTBASE]|, clset)
    ensures Settled(f, nolook, ws)
  {
    var ps := f.pres[c - NTBASE];
    forall k | 0 <= k < |ws| && ws[k].flag == 0
      ensures Done(f, nolook, ws, ws[k])
    {
      if !Done(f, nolook, ws, ws[k]) {
        HasFirstStays(ws, ws, ps, |ps|, clset, Gives(f, nolook, ws[k]));
      }
    }
  }

  lemma AddsTwice(a: seq<Wset>, b: seq<Wset>, c: seq<Wset>)
    requires Adds(a, b) && Adds(b, c)
    ensures Adds(a, c)
  {
  }

  /** The entry closure makes for a production, and the item it stands for. */
  function NewPitem(prd: seq<int>): Pitem
    requires prd != []
  {
    Pitem(prd, 0, prd[0], 0 - prd[|prd| - 1])
  }

  lemma NewPitemOk(g: Grammar, i: nat, prd: seq<int>, r: nat)
    requires WellFormed(g) && IsProductionOf(g, i, prd, r) && i > 0
    ensures r > 0 && prd != [] && PitemOk(g, NewPitem(prd)) && ItemOf(NewPitem(prd)) == Lr0(r, 0)
    ensures NewPitem(prd).prodno > 0
  {
    RuleShape(g, r);
  }

  /** Adding lookaheads to the entry of a production of c keeps the invariant. */
  lemma RaiseKeeps(f: Facts, kernel: seq<Item>, ws: seq<Wset>, v: nat, c: int, clset: set<nat>, r: nat)
    requires Inv(f, kernel, ws) && v < |ws| && ClsetBelow(f, kernel, c, clset)
    requires ItemOf(ws[v].pitem) == Lr0(r, 0) && HasRule(f.g, r) && Lhs(f.g, r) == c
    requires forall t :: t in clset ==> t <= f.g.ntokens
    ensures Inv(f, kernel, ws[v := ws[v].(ws := ws[v].ws + clset, flag := 1)])
  {
    var ws' := ws[v := ws[v].(ws := ws[v].ws + clset, flag := 1)];
    forall m: LookMap | ClosedMap(f, m) && Includes(kernel, m)
      ensures Below(ws', m)
    {
      assert Below(ws, m);
    }
  }

  lemma AppendKeeps(f: Facts, kernel: seq<Item>, ws: seq<Wset>, i: nat, prd: seq<int>, la: set<nat>, clset: set<nat>,
                    r: nat)
    requires Inv(f, kernel, ws) && IsProductionOf(f.g, i, prd, r) && i > 0
    requires ClsetBelow(f, kernel, NTBASE + i, clset) && la <= clset && forall t :: t in clset ==> t <= f.g.ntokens
    requires forall v :: 0 <= v < |ws| ==> !(ws[v].pitem.off == 0 && ws[v].pitem.prod == prd)
    ensures prd != [] && Inv(f, kernel, ws + [Wset(NewPitem(prd), 1, la)])
  {
    NewPitemOk(f.g, i, prd, r);
    var w := Wset(NewPitem(prd), 1, la);
    var ws' := ws + [w];
    forall j | 0 <= j < |ws|
      ensures ItemOf(ws[j].pitem) != ItemOf(w.pitem)
    {
      SameItem(f.g, ws[j].pitem, w.pitem);
    }
    forall m: LookMap | ClosedMap(f, m) && Includes(kernel, m)
      ensures Below(ws', m)
    {
      assert Below(ws, m);
      assert Lr0(r, 0) in m && clset <= m[Lr0(r, 0)];
    }
  }

  // ------------------------------------------------------------------ closure

  /** What closure leaves in wsets. */
  ghost predicate ClosureDone(f: Facts, nolook: bool, kernel: seq<Item>, ws: seq<Wset>) {
    && Inv(f, kernel, ws) && RulesInOrder(f.g, |kernel|, ws)
    && forall k :: 0 <= k < |ws| ==> ws[k].flag == 0 && Done(f, nolook, ws, ws[k])
  }

  /** The walk over the symbols after c: clset' is clset with FIRST of the rest, then la. */
  method AddLookahead(f: Facts, pi: seq<int>, off: int, la: set<nat>, clset: set<nat>) returns (clset': set<nat>)
    requires Sized(f) && 0 <= off && off + 1 < |pi| && pi[|pi| - 1] <= 0
    requires forall k :: off < k < |pi| - 1 ==> IsToken(f.g, pi[k]) || IsNonter(f.g, pi[k])
    ensures clset' == clset + RestLook(f, pi[off + 1..], la)
  {
    clset' := clset;
    var ipi := off + 1;
    var ch := pi[ipi];
    ipi := ipi + 1;
    while ch > 0
      invariant off + 1 < ipi <= |pi| && ch == pi[ipi - 1]
      invariant clset + RestLook(f, pi[off + 1..], la) == clset' + RestLook(f, pi[ipi - 1..], la)
      decreases |pi| - ipi
    {
      assert pi[ipi - 1..][1..] == pi[ipi..];
      if ch < NTBASE {
        clset' := clset' + {ch as nat};
        break;
      }
      clset' := clset' + f.first[ch - NTBASE];
      if f.pempty[ch - NTBASE] == 0 {
        break;
      }
      ch := pi[ipi];
      ipi := ipi + 1;
    }
    if ch <= 0 {
      clset' := clset' + la;
    }
  }

  lemma {:induction false} RestLookTerminator(f: Facts, form: seq<int>, x: int, la: set<nat>)
    requires x <= 0
    ensures RestLook(f, form + [x], la) == RestLook(f, form, la)
  {
    if form != [] {
      assert (form + [x])[1..] == form[1..] + [x];
      RestLookTerminator(f, form[1..], x, la);
    }
  }

  /** The walk from an item with its dot before a nonterminal computes what it passes on. */
  lemma WalkPassesOn(f: Facts, p: Pitem, la: set<nat>)
    requires Sized(f) && PitemOk(f.g, p) && p.first >= NTBASE
    ensures 0 <= p.off && p.off + 1 < |p.prod| && p.prod[|p.prod| - 1] <= 0
    ensures forall k :: p.off < k < |p.prod| - 1 ==> IsToken(f.g, p.prod[k]) || IsNonter(f.g, p.prod[k])
    ensures RestLook(f, p.prod[p.off + 1..], la) == PassesOn(f, ItemOf(p), la)
    ensures (forall t :: t in la ==> t <= f.g.ntokens) ==> forall t :: t in PassesOn(f, ItemOf(p), la) ==>
      t <= f.g.ntokens
  {
    var it := ItemOf(p);
    PitemShape(f.g, p);
    RuleShape(f.g, it.rule);
    var rest := RestOf(f.g, it);
    RestLookTerminator(f, rest, 0 - p.prodno, la);
    forall k | p.off < k < |p.prod| - 1
      ensures IsToken(f.g, p.prod[k]) || IsNonter(f.g, p.prod[k])
    {
      assert p.prod[k] == p.prod[p.off + 1..][k - p.off - 1] == rest[k - p.off - 1];
      assert rest[k - p.off - 1] in Rhs(f.g, it.rule);
    }
    assert p.prod[|p.prod| - 1] == p.prod[p.off + 1..][|p.prod| - p.off - 2];
    if forall t :: t in la ==> t <= f.g.ntokens {
      forall s | s in rest
        ensures IsToken(f.g, s) || IsNonter(f.g, s)
      {
        assert s in Rhs(f.g, it.rule);
      }
      RestLookTokens(f, rest, la);
    }
  }

  lemma SettledPending(f: Facts, nolook: bool, ws: seq<Wset>, c: int, clset: set<nat>)
    requires Settled(f, nolook, ws)
    ensures Pending(f, nolook, ws, c, clset)
  {
  }

  lemma EntryOk(f: Facts, kernel: seq<Item>, ws: seq<Wset>, v: nat)
    requires Inv(f, kernel, ws) && v < |ws|
    ensures Sized(f) && PitemOk(f.g, ws[v].pitem) && FlagsBinary(ws)
    ensures forall t :: t in ws[v].ws ==> t <= f.g.ntokens
  {
  }

  ghost predicate FlagsBinary(ws: seq<Wset>) {
    forall k :: 0 <= k < |ws| ==> ws[k].flag == 0 || ws[k].flag == 1
  }

  lemma ClsetJoin(f: Facts, kernel: seq<Item>, c: int, a: set<nat>, b: set<nat>)
    requires ClsetBelow(f, kernel, c, a) && ClsetBelow(f, kernel, c, b)
    ensures ClsetBelow(f, kernel, c, a + b)
  {
  }

  lemma ClsetSmaller(f: Facts, kernel: seq<Item>, c: int, a: set<nat>, b: set<nat>)
    requires ClsetBelow(f, kernel, c, a) && b <= a
    ensures ClsetBelow(f, kernel, c, b)
  {
  }

  class Workspace {
    const f: Facts
    var wsets: seq<Wset>

    constructor (f: Facts)
      ensures this.f == f
    {
      this.f := f;
      wsets := [];
    }

    /** The loop over v: collects the lookaheads that flagged items before c pass on, and
        resets their flags. */
    method Gather(ghost kernel: seq<Item>, nolook: bool, u: nat, c: int) returns (clset: set<nat>)
      requires Inv(f, kernel, wsets) && Settled(f, nolook, wsets)
      requires u < |wsets| && wsets[u].flag == 1 && wsets[u].pitem.first == c && c >= NTBASE
      modifies this
      ensures Inv(f, kernel, wsets) && SameLooks(old(wsets), wsets)
      ensures Pending(f, nolook, wsets, c, clset) && ClsetBelow(f, kernel, c, clset)
      ensures forall t :: t in clset ==> t <= f.g.ntokens
      ensures nolook ==> clset == {}
      ensures wsets[u].flag == 0 && forall k :: 0 <= k < u ==> wsets[k] == old(wsets)[k]
    {
      hide Inv, Settled, Done, PassesOn, ClsetBelow, Sized, Pending, PitemOk, Introduces;
      clset := {};
      SettledPending(f, nolook, wsets, c, {});
      GivesBelow(f, kernel, wsets, u, c);
      ClsetSmaller(f, kernel, c, PassesOn(f, ItemOf(wsets[u].pitem), wsets[u].ws), {});
      for v := u to |wsets|
        invariant Inv(f, kernel, wsets) && SameLooks(old(wsets), wsets)
        invariant Pending(f, nolook, wsets, c, clset) && ClsetBelow(f, kernel, c, clset)
        invariant forall t :: t in clset ==> t <= f.g.ntokens
        invariant nolook ==> clset == {}
        invariant v > u ==> wsets[u].flag == 0
        invariant v == u ==> wsets[u].flag == 1
        invariant forall k :: 0 <= k < u ==> wsets[k] == old(wsets)[k]
      {
        if wsets[v].flag != 1 || wsets[v].pitem.first != c {
          continue;
        }
        ghost var ws, was := wsets, clset;
        var w := wsets[v];
        EntryOk(f, kernel, ws, v);
        WalkPassesOn(f, w.pitem, w.ws);
        GivesBelow(f, kernel, ws, v, c);
        wsets := wsets[v := w.(flag := 0)];
        if !nolook {
          clset := AddLookahead(f, w.pitem.prod, w.pitem.off, w.ws, clset);
          ClsetJoin(f, kernel, c, was, PassesOn(f, ItemOf(w.pitem), w.ws));
        }
        ResetKeeps(f, kernel, ws, wsets);
        ResetPending(f, nolook, ws, v, c, was, clset);
      }
    }

    /** The search for an entry of the production prd; |wsets| when there is none. */
    method Find(prd: seq<int>) returns (v: nat)
      ensures v <= |wsets|
      ensures v < |wsets| ==> wsets[v].pitem.off == 0 && wsets[v].pitem.prod == prd
      ensures forall k :: 0 <= k < v ==> !(wsets[k].pitem.off == 0 && wsets[k].pitem.prod == prd)
    {
      v := 0;
      while v < |wsets| && !(wsets[v].pitem.off == 0 && wsets[v].pitem.prod == prd)
        invariant v <= |wsets|
        invariant forall k :: 0 <= k < v ==> !(wsets[k].pitem.off == 0 && wsets[k].pitem.prod == prd)
      {
        v := v + 1;
      }
    }

    /** One production of c receives clset; work says whether an entry has to be closed again. */
    method Receive(ghost kernel: seq<Item>, nolook: bool, ghost i: nat, ghost r: nat, prd: seq<int>, clset: set<nat>)
      returns (work: bool)
      requires Inv(f, kernel, wsets) && ClsetBelow(f, kernel, NTBASE + i, clset)
      requires 0 < i && IsProductionOf(f.g, i, prd, r)
      requires RulesInOrder(f.g, |kernel|, wsets) && EarlierRulesIn(f.g, wsets, r)
      requires forall t :: t in clset ==> t <= f.g.ntokens
      requires nolook ==> clset == {}
      modifies this
      ensures Inv(f, kernel, wsets) && Adds(old(wsets), wsets) && Has(wsets, prd, clset)
      ensures RulesInOrder(f.g, |kernel|, wsets)
      ensures work ==> MissingEntries(f.g, wsets) < old(MissingEntries(f.g, wsets))
      ensures !work ==> forall k :: 0 <= k < |old(wsets)| ==> wsets[k] == old(wsets)[k]
      ensures !work && !nolook ==> wsets == old(wsets)
    {
      hide RulesInOrder, EarlierRulesIn, Justified, ClsetBelow, MissingEntries, KernelShape, AllProductions, RestLook;
      ghost var was := wsets;
      NewPitemOk(f.g, i, prd, r);
      work := false;
      var v := Find(prd);
      if v < |wsets| {
        assert PitemOk(f.g, wsets[v].pitem);
        SameItem(f.g, wsets[v].pitem, NewPitem(prd));
        if !nolook && !(clset <= wsets[v].ws) {
          RaiseKeeps(f, kernel, wsets, v, NTBASE + i, clset, r);
          wsets := wsets[v := wsets[v].(ws := wsets[v].ws + clset, flag := 1)];
          work := true;
          OrderSame(f.g, |kernel|, was, wsets);
          assert was[v].ws != wsets[v].ws;
          LessMissing(f.g, kernel, was, wsets);
        }
        assert clset <= wsets[v].ws;
      } else {
        var la := if nolook then {} else clset;
        AppendKeeps(f, kernel, wsets, i, prd, la, clset, r);
        OrderAppend(f.g, |kernel|, wsets, Wset(NewPitem(prd), 1, la));
        wsets := wsets + [Wset(NewPitem(prd), 1, la)];
        work := !nolook;
        assert wsets[|was|].pitem.off == 0 && wsets[|was|].pitem.prod == prd && clset <= wsets[|was|].ws;
        LessMissing(f.g, kernel, was, wsets);
      }
    }

    /** The loop over the productions derived from c. */
    method Spread(ghost kernel: seq<Item>, nolook: bool, c: int, clset: set<nat>) returns (work: bool)
      requires Inv(f, kernel, wsets) && Pending(f, nolook, wsets, c, clset) && ClsetBelow(f, kernel, c, clset)
      requires 0 < c - NTBASE < |f.pres| && RulesInOrder(f.g, |kernel|, wsets)
      requires forall t :: t in clset ==> t <= f.g.ntokens
      requires nolook ==> clset == {}
      modifies this
      ensures Inv(f, kernel, wsets) && Settled(f, nolook, wsets) && Adds(old(wsets), wsets)
      ensures RulesInOrder(f.g, |kernel|, wsets)
      ensures MissingEntries(f.g, wsets) <= old(MissingEntries(f.g, wsets))
      ensures work ==> MissingEntries(f.g, wsets) < old(MissingEntries(f.g, wsets))
      ensures !work ==> forall k :: 0 <= k < |old(wsets)| ==> wsets[k] == old(wsets)[k]
      ensures !work && !nolook ==> wsets == old(wsets)
    {
      hide HasFirst, Has, Pending, Settled, ClsetBelow, RulesInOrder, EarlierRulesIn;
      var curres := f.pres[c - NTBASE];
      work := false;
      NothingFirst(wsets, curres, clset);
      for s := 0 to |curres|
        invariant Inv(f, kernel, wsets) && Pending(f, nolook, wsets, c, clset) && Adds(old(wsets), wsets)
        invariant HasFirst(wsets, curres, s, clset) && RulesInOrder(f.g, |kernel|, wsets)
        invariant MissingEntries(f.g, wsets) <= old(MissingEntries(f.g, wsets))
        invariant work ==> MissingEntries(f.g, wsets) < old(MissingEntries(f.g, wsets))
        invariant !work ==> forall k :: 0 <= k < |old(wsets)| ==> wsets[k] == old(wsets)[k]
        invariant !work && !nolook ==> wsets == old(wsets)
      {
        ghost var was := wsets;
        ghost var r := RuleOfProduction(f.g, f.pres, c - NTBASE, s);
        EarlierReceived(f, kernel, was, c - NTBASE, s, clset, r);
        var more := Receive(kernel, nolook, c - NTBASE, r, curres[s], clset);
        work := work || more;
        AddsTwice(old(wsets), was, wsets);
        AddsPending(f, nolook, was, wsets, c, clset);
        HasFirstStays(was, wsets, curres, s, clset, clset);
        HasFirstMore(wsets, curres, s, clset);
        LessMissing(f.g, kernel, was, wsets);
      }
      PendingSettled(f, nolook, wsets, c, clset);
    }

    /** The body of the loop over u: one entry is closed and its flag reset. */
    method CloseEntry(ghost kernel: seq<Item>, nolook: bool, u: nat) returns (work: bool)
      requires Inv(f, kernel, wsets) && Settled(f, nolook, wsets) && RulesInOrder(f.g, |kernel|, wsets) && u < |wsets|
      modifies this
      ensures Inv(f, kernel, wsets) && Settled(f, nolook, wsets) && RulesInOrder(f.g, |kernel|, wsets)
      ensures |old(wsets)| <= |wsets|
      ensures MissingEntries(f.g, wsets) <= old(MissingEntries(f.g, wsets))
      ensures work || |wsets| > |old(wsets)| ==> MissingEntries(f.g, wsets) < old(MissingEntries(f.g, wsets))
      ensures !work ==> wsets[u].flag == 0 && forall k :: 0 <= k < u ==> wsets[k] == old(wsets)[k]
    {
      hide RulesInOrder;
      var c := wsets[u].pitem.first;
      ghost var was := wsets;
      work := false;
      if wsets[u].flag == 0 {
      } else if c < NTBASE {
        wsets := wsets[u := wsets[u].(flag := 0)];
        ResetKeeps(f, kernel, was, wsets);
        ResetSettled(f, nolook, was, u);
        OrderSame(f.g, |kernel|, was, wsets);
        LessMissing(f.g, kernel, was, wsets);
      } else {
        assert PitemOk(f.g, wsets[u].pitem);
        PitemShape(f.g, wsets[u].pitem);
        var clset := Gather(kernel, nolook, u, c);
        ghost var gathered := wsets;
        OrderSame(f.g, |kernel|, was, gathered);
        work := Spread(kernel, nolook, c, clset);
        LessMissing(f.g, kernel, was, gathered);
        LessMissing(f.g, kernel, gathered, wsets);
      }
    }

    /** closure */
    method Closure(kernel: seq<Item>, nolook: bool)
      requires Sized(f) && KernelShape(f.g, kernel)
      modifies this
      ensures ClosureDone(f, nolook, kernel, wsets)
    {
      hide Inv, Settled, MissingEntries, Done, Sized, KernelShape, RulesInOrder;
      wsets := seq(|kernel|, k requires 0 <= k < |kernel| => Wset(kernel[k].pitem, 1, kernel[k].look));
      StartInv(f, kernel, wsets);
      StartSettled(f, nolook, wsets);
      var work := true;
      while work
        invariant Inv(f, kernel, wsets) && Settled(f, nolook, wsets) && RulesInOrder(f.g, |kernel|, wsets)
        invariant !work ==> forall k :: 0 <= k < |wsets| ==> wsets[k].flag == 0
        decreases MissingEntries(f.g, wsets), work
      {
        work := false;
        ghost var room := MissingEntries(f.g, wsets);
        var u := 0;
        while u < |wsets|
          invariant u <= |wsets| && Inv(f, kernel, wsets) && Settled(f, nolook, wsets)
          invariant RulesInOrder(f.g, |kernel|, wsets)
          invariant !work ==> forall k :: 0 <= k < u ==> wsets[k].flag == 0
          invariant MissingEntries(f.g, wsets) <= room && (work ==> MissingEntries(f.g, wsets) < room)
          decreases MissingEntries(f.g, wsets), |wsets| - u
        {
          var more := CloseEntry(kernel, nolook, u);
          work := work || more;
          u := u + 1;
        }
      }
      SettledDone(f, nolook, kernel, wsets);
    }
  }

  lemma StartSettled(f: Facts, nolook: bool, ws: seq<Wset>)
    requires forall k :: 0 <= k < |ws| ==> ws[k].flag == 1
    ensures Settled(f, nolook, ws)
  {
  }

  lemma SettledDone(f: Facts, nolook: bool, kernel: seq<Item>, ws: seq<Wset>)
    requires Inv(f, kernel, ws) && Settled(f, nolook, ws) && forall k :: 0 <= k < |ws| ==> ws[k].flag == 0
    requires RulesInOrder(f.g, |kernel|, ws)
    ensures ClosureDone(f, nolook, kernel, ws)
  {
  }

  lemma StartInv(f: Facts, kernel: seq<Item>, ws: seq<Wset>)
    requires Sized(f) && KernelShape(f.g, kernel)
    requires |ws| == |kernel| && forall k :: 0 <= k < |ws| ==> ws[k] == Wset(kernel[k].pitem, 1, kernel[k].look)
    ensures Inv(f, kernel, ws) && RulesInOrder(f.g, |kernel|, ws)
  {
  }

  lemma ResetSettled(f: Facts, nolook: bool, ws: seq<Wset>, u: nat)
    requires u < |ws| && Settled(f, nolook, ws) && ws[u].pitem.first < NTBASE
    ensures Settled(f, nolook, ws[u := ws[u].(flag := 0)])
  {
    var ws' := ws[u := ws[u].(flag := 0)];
    forall k | 0 <= k < |ws'| && ws'[k].flag == 0
      ensures Done(f, nolook, ws', ws'[k])
    {
      if k != u {
        DoneStays(f, nolook, ws, ws', ws[k]);
      }
    }
  }

  // ------------------------------------------------------------------ what closure computes

  ghost predicate HasItem(ws: seq<Wset>, it: Lr0) {
    exists k :: 0 <= k < |ws| && ItemOf(ws[k].pitem) == it
  }

  /** An entry's contribution has reached the entry of each production it introduces. */
  lemma ReachesEntry(f: Facts, nolook: bool, kernel: seq<Item>, ws: seq<Wset>, k: nat, r: nat) returns (v: nat)
    requires ClosureDone(f, nolook, kernel, ws) && k < |ws| && Introduces(f.g, ItemOf(ws[k].pitem), r)
    ensures v < |ws| && ItemOf(ws[v].pitem) == Lr0(r, 0) && Gives(f, nolook, ws[k]) <= ws[v].ws
  {
    var p := ws[k].pitem;
    assert PitemOk(f.g, p);
    PitemShape(f.g, p);
    RuleShape(f.g, r);
    var i: nat := p.first - NTBASE;
    assert IsProductionOf(f.g, i, Tail(f.g, r), r);
    assert Tail(f.g, r) in f.pres[i];
    var s :| 0 <= s < |f.pres[i]| && f.pres[i][s] == Tail(f.g, r);
    assert Done(f, nolook, ws, ws[k]);
    assert Has(ws, f.pres[i][s], Gives(f, nolook, ws[k]));
    var x :|
      0 <= x < |ws| && ws[x].pitem.off == 0 && ws[x].pitem.prod == Tail(f.g, r) && Gives(f, nolook, ws[k]) <= ws[x].ws;
    NewPitemOk(f.g, i, Tail(f.g, r), r);
    assert PitemOk(f.g, ws[x].pitem);
    SameItem(f.g, ws[x].pitem, NewPitem(Tail(f.g, r)));
    v := x;
  }

  ghost function AllItems(g: Grammar): set<Lr0> {
    set r: nat, d: nat | r < |g.prods| && d <= |g.prods[r]| :: Lr0(r, d)
  }

  ghost function UpTo(n: nat): (s: set<nat>)
    ensures forall t: nat :: t in s <==> t <= n
  {
    if n == 0 then {0} else UpTo(n - 1) + {n}
  }

  /** Everything in the LR(0) closure, with every lookahead. */
  ghost function FullMap(f: Facts, kernel: set<Lr0>): LookMap {
    map it | it in AllItems(f.g) && ValidItem(f.g, it) && InClosure(f.g, kernel, it) :: UpTo(f.g.ntokens)
  }

  lemma FullMapClosed(f: Facts, kernel: seq<Item>)
    requires Sized(f) && KernelShape(f.g, kernel)
    ensures ClosedMap(f, FullMap(f, KernelSet(kernel))) && Includes(kernel, FullMap(f, KernelSet(kernel)))
  {
    var g, m := f.g, FullMap(f, KernelSet(kernel));
    forall it, r: nat | it in m && Introduces(g, it, r)
      ensures Lr0(r, 0) in m && PassesOn(f, it, m[it]) <= m[Lr0(r, 0)]
    {
      ClosureStep(g, KernelSet(kernel), it, r);
      RuleShape(g, it.rule);
      assert Lr0(r, 0) in AllItems(g);
      if it.dot < |Rhs(g, it.rule)| {
        forall s | s in RestOf(g, it)
          ensures IsToken(g, s) || IsNonter(g, s)
        {
          assert s in Rhs(g, it.rule);
        }
        RestLookTokens(f, RestOf(g, it), m[it]);
      }
    }
    forall k | 0 <= k < |kernel|
      ensures ItemOf(kernel[k].pitem) in m && kernel[k].look <= m[ItemOf(kernel[k].pitem)]
    {
      var it := ItemOf(kernel[k].pitem);
      assert PitemOk(g, kernel[k].pitem);
      assert it in KernelSet(kernel) && it in AllItems(g);
    }
  }

  /** The items of the working sets are exactly the LR(0) closure, lookaheads on or off. */
  lemma ClosureItems(f: Facts, nolook: bool, kernel: seq<Item>, ws: seq<Wset>, it: Lr0)
    requires ClosureDone(f, nolook, kernel, ws)
    ensures InClosure(f.g, KernelSet(kernel), it) <==> HasItem(ws, it)
  {
    if HasItem(ws, it) {
      FullMapClosed(f, kernel);
      assert Below(ws, FullMap(f, KernelSet(kernel)));
    }
    if InClosure(f.g, KernelSet(kernel), it) {
      var have := set k | 0 <= k < |ws| :: ItemOf(ws[k].pitem);
      forall i, r: nat | i in have && HasRule(f.g, r) && ValidItem(f.g, i) && Next(f.g, i) >= NTBASE &&
        Lhs(f.g, r) == Next(f.g, i)
        ensures Lr0(r, 0) in have
      {
        var k :| 0 <= k < |ws| && ItemOf(ws[k].pitem) == i;
        var v := ReachesEntry(f, nolook, kernel, ws, k, r);
      }
      forall i | i in have
        ensures ValidItem(f.g, i)
      {
        var k :| 0 <= k < |ws| && ItemOf(ws[k].pitem) == i;
        assert PitemOk(f.g, ws[k].pitem);
      }
      forall i | i in KernelSet(kernel)
        ensures i in have
      {
        var k :| 0 <= k < |kernel| && ItemOf(kernel[k].pitem) == i;
        assert ItemOf(ws[k].pitem) == i;
      }
      ClosedHasClosure(f.g, KernelSet(kernel), have, it);
    }
  }

  /** The working sets as an LR(1) item set. */
  ghost function MapOf(ws: seq<Wset>): LookMap {
    map it | it in ItemsOf(ws) :: LookOf(ws, it)
  }

  ghost function ItemsOf(ws: seq<Wset>): set<Lr0> {
    set k | 0 <= k < |ws| :: ItemOf(ws[k].pitem)
  }

  ghost function LookOf(ws: seq<Wset>, it: Lr0): set<nat> {
    set t: nat, k | 0 <= k < |ws| && ItemOf(ws[k].pitem) == it && t in ws[k].ws :: t
  }

  lemma MapOfAt(f: Facts, kernel: seq<Item>, ws: seq<Wset>, k: nat)
    requires Inv(f, kernel, ws) && k < |ws|
    ensures ItemOf(ws[k].pitem) in MapOf(ws) && MapOf(ws)[ItemOf(ws[k].pitem)] == ws[k].ws
  {
    forall j | 0 <= j < |ws| && ItemOf(ws[j].pitem) == ItemOf(ws[k].pitem)
      ensures j == k
    {
    }
  }

  ghost predicate MapWithin(m: LookMap, m': LookMap) {
    forall it :: it in m ==> it in m' && m[it] <= m'[it]
  }

  /** closure with lookaheads on computes the least set of LR(1) items that includes the
      kernel and is closed. */
  lemma ClosureIsLeast(f: Facts, kernel: seq<Item>, ws: seq<Wset>)
    requires ClosureDone(f, false, kernel, ws)
    ensures ClosedMap(f, MapOf(ws)) && Includes(kernel, MapOf(ws))
    ensures forall m: LookMap :: ClosedMap(f, m) && Includes(kernel, m) ==> MapWithin(MapOf(ws), m)
  {
    forall it, r: nat | it in MapOf(ws) && Introduces(f.g, it, r)
      ensures Lr0(r, 0) in MapOf(ws) && PassesOn(f, it, MapOf(ws)[it]) <= MapOf(ws)[Lr0(r, 0)]
    {
      var k :| 0 <= k < |ws| && ItemOf(ws[k].pitem) == it;
      MapOfAt(f, kernel, ws, k);
      var v := ReachesEntry(f, false, kernel, ws, k, r);
      MapOfAt(f, kernel, ws, v);
    }
    forall k | 0 <= k < |kernel|
      ensures ItemOf(kernel[k].pitem) in MapOf(ws) && kernel[k].look <= MapOf(ws)[ItemOf(kernel[k].pitem)]
    {
      MapOfAt(f, kernel, ws, k);
    }
    forall m: LookMap | ClosedMap(f, m) && Includes(kernel, m)
      ensures MapWithin(MapOf(ws), m)
    {
      assert Below(ws, m);
      forall it | it in MapOf(ws)
        ensures it in m && MapOf(ws)[it] <= m[it]
      {
        var k :| 0 <= k < |ws| && ItemOf(ws[k].pitem) == it;
        MapOfAt(f, kernel, ws, k);
      }
    }
  }
}
