/** cempty (cmd/goyacc/yacc.go): which nonterminals derive a string of tokens at all,
    and which derive the empty string. */
module Nullable {
  import opened Grammars

  const WHOKNOWS := 0
  const OK := 1
  const EMPTY := 1

  ghost predicate AllTokens(g: Grammar, w: seq<int>) {
    forall x :: x in w ==> IsToken(g, x)
  }

  ghost predicate DerivesTokens(g: Grammar, s: int) {
    exists w :: Derives(g, [s], w) && AllTokens(g, w)
  }

  ghost predicate DerivesEmpty(g: Grammar, s: int) {
    Derives(g, [s], [])
  }

  /** What cempty asks of a grammar: every nonterminal derives some token string. */
  ghost predicate Productive(g: Grammar) {
    forall s :: NTBASE < s <= NTBASE + g.nnonter ==> DerivesTokens(g, s)
  }

  /** The two passes of cempty differ in one thing: whether a token on a right-hand
      side is acceptable (tokensGood) or spoils the rule. */
  ghost predicate Wanted(g: Grammar, tokensGood: bool, w: seq<int>) {
    AllTokens(g, w) && (tokensGood || w == [])
  }

  ghost predicate Target(g: Grammar, tokensGood: bool, s: int) {
    if tokensGood then DerivesTokens(g, s) else DerivesEmpty(g, s)
  }

  lemma TargetTree(g: Grammar, tokensGood: bool, s: int) returns (t: Tree)
    requires Target(g, tokensGood, s)
    ensures Valid(g, t) && Root(g, t) == s && Wanted(g, tokensGood, Yield(t))
  {
    if tokensGood {
      var w :| Derives(g, [s], w) && AllTokens(g, w);
      t := TreeOf(g, s, w);
    } else {
      t := TreeOf(g, s, []);
    }
  }

  lemma TreeTarget(g: Grammar, tokensGood: bool, t: Tree)
    requires Valid(g, t) && Wanted(g, tokensGood, Yield(t))
    ensures Target(g, tokensGood, Root(g, t))
  {
    TreeDerives(g, t);
  }

  ghost predicate Good(m: seq<int>, tokensGood: bool, s: int) {
    if s >= NTBASE then s - NTBASE < |m| && m[s - NTBASE] != WHOKNOWS else tokensGood
  }

  ghost predicate GoodRhs(g: Grammar, m: seq<int>, tokensGood: bool, r: nat)
    requires HasRule(g, r)
  {
    forall k :: 0 <= k < |Rhs(g, r)| ==> Good(m, tokensGood, Rhs(g, r)[k])
  }

  ghost predicate Closed(g: Grammar, m: seq<int>, tokensGood: bool) {
    forall r: nat :: HasRule(g, r) && GoodRhs(g, m, tokensGood, r) ==> Good(m, tokensGood, Lhs(g, r))
  }

  ghost predicate Sound(g: Grammar, m: seq<int>, tokensGood: bool) {
    forall i :: 0 <= i < |m| && m[i] != WHOKNOWS ==> Target(g, tokensGood, NTBASE + i)
  }

  lemma {:induction false} YieldsParts(ts: seq<Tree>, k: nat)
    requires k < |ts|
    ensures forall x :: x in Yield(ts[k]) ==> x in Yields(ts)
    ensures Yields(ts) == [] ==> Yield(ts[k]) == []
  {
    if k > 0 {
      assert ts[1..][k - 1] == ts[k];
      YieldsParts(ts[1..], k - 1);
    }
  }

  /** A closed marking covers everything that has a wanted derivation. */
  lemma {:induction false} ClosedCovers(g: Grammar, m: seq<int>, tokensGood: bool, t: Tree)
    requires Closed(g, m, tokensGood) && g.ntokens < NTBASE
    requires Valid(g, t) && Wanted(g, tokensGood, Yield(t))
    ensures Good(m, tokensGood, Root(g, t))
    decreases t
  {
    match t
    case Leaf(s) =>
      assert Yield(t) == [s] && s in Yield(t);
    case Node(r, kids) =>
      forall k | 0 <= k < |Rhs(g, r)|
        ensures Good(m, tokensGood, Rhs(g, r)[k])
      {
        YieldsParts(kids, k);
        assert kids[k] in kids;
        assert Rhs(g, r)[k] == Roots(g, kids)[k] == Root(g, kids[k]);
        ClosedCovers(g, m, tokensGood, kids[k]);
      }
  }

  lemma {:induction false} WantedForest(g: Grammar, m: seq<int>, tokensGood: bool, form: seq<int>)
    returns (ts: seq<Tree>)
    requires Sound(g, m, tokensGood)
    requires forall k :: 0 <= k < |form| ==> Good(m, tokensGood, form[k]) && (form[k] < NTBASE ==> IsToken(g, form[k]))
    ensures ValidAll(g, ts) && Roots(g, ts) == form && Wanted(g, tokensGood, Yields(ts))
    decreases |form|
  {
    if form == [] {
      ts := [];
    } else {
      var rest := WantedForest(g, m, tokensGood, form[1..]);
      var t;
      assert Good(m, tokensGood, form[0]);
      if form[0] >= NTBASE {
        t := TargetTree(g, tokensGood, form[0]);
      } else {
        t := Leaf(form[0]);
      }
      ts := [t] + rest;
      assert ts[1..] == rest;
      assert Yields(ts) == Yield(t) + Yields(rest);
      assert Roots(g, ts) == [form[0]] + form[1..];
    }
  }

  lemma RuleTarget(g: Grammar, m: seq<int>, tokensGood: bool, r: nat)
    requires WellFormed(g) && r < |g.prods| && HasRule(g, r)
    requires Sound(g, m, tokensGood) && GoodRhs(g, m, tokensGood, r)
    ensures Target(g, tokensGood, Lhs(g, r))
  {
    RuleShape(g, r);
    var ts := WantedForest(g, m, tokensGood, Rhs(g, r));
    TreeTarget(g, tokensGood, Node(r, ts));
  }

  /** Sound and closed together: the marked nonterminals are exactly the wanted ones. */
  lemma ExactMarks(g: Grammar, m: seq<int>, tokensGood: bool)
    requires WellFormed(g) && |m| == g.nnonter + 1
    requires Sound(g, m, tokensGood) && Closed(g, m, tokensGood)
    ensures forall i :: 0 <= i < |m| ==> (m[i] != WHOKNOWS <==> Target(g, tokensGood, NTBASE + i))
  {
    forall i | 0 <= i < |m| && Target(g, tokensGood, NTBASE + i)
      ensures m[i] != WHOKNOWS
    {
      var t := TargetTree(g, tokensGood, NTBASE + i);
      ClosedCovers(g, m, tokensGood, t);
    }
  }

  ghost function Zeros(s: seq<int>): nat {
    if s == [] then 0 else (if s[0] == 0 then 1 else 0) + Zeros(s[1..])
  }

  lemma {:induction false} FewerZeros(s: seq<int>, i: nat, v: int)
    requires i < |s| && s[i] == 0 && v != 0
    ensures Zeros(s[i := v]) < Zeros(s)
  {
    if i > 0 {
      assert s[i := v][1..] == s[1..][i - 1 := v];
      FewerZeros(s[1..], i - 1, v);
    } else {
      assert s[i := v][1..] == s[1..];
    }
  }

  /** Rules below n cannot mark anything more. */
  ghost predicate Stuck(g: Grammar, m: seq<int>, tokensGood: bool, n: nat) {
    forall r: nat :: r < n && HasRule(g, r) && GoodRhs(g, m, tokensGood, r) ==> Good(m, tokensGood, Lhs(g, r))
  }

  /** aryfil */
  method AryFil(v: array<int>, n: nat, c: int)
    requires n <= v.Length
    modifies v
    ensures forall i :: 0 <= i < v.Length ==> v[i] == if i < n then c else old(v[i])
  {
    for i := 0 to n
      invariant forall k :: 0 <= k < v.Length ==> v[k] == if k < i then c else old(v[k])
    {
      v[i] := c;
    }
  }

  /** First pass of cempty: mark the nonterminals that derive some token string. */
  method MarkProductive(g: Grammar, pempty: array<int>)
    requires WellFormed(g) && pempty.Length == g.nnonter + 1
    modifies pempty
    ensures forall i :: 0 <= i < pempty.Length ==> (pempty[i] == OK <==> DerivesTokens(g, NTBASE + i))
  {
    AryFil(pempty, g.nnonter + 1, WHOKNOWS);
    var nprod := |g.prods|;
    label more: while true
      invariant Sound(g, pempty[..], true)
      invariant forall k :: 0 <= k < pempty.Length ==> pempty[k] == WHOKNOWS || pempty[k] == OK
      decreases Zeros(pempty[..])
    {
      ghost var m := pempty[..];
      var i := 0;
      while i < nprod
        invariant 0 <= i <= nprod && pempty[..] == m
        invariant Stuck(g, m, true, i)
      {
        RuleShape(g, i);
        var prd := g.prods[i];
        assert forall k :: 1 <= k < |prd| - 1 ==> prd[k] == Rhs(g, i)[k - 1] && prd[k] in Rhs(g, i);
        if pempty[prd[0] - NTBASE] == WHOKNOWS {
          var np := |prd| - 1;
          var p := 1;
          while p < np && !(prd[p] >= NTBASE && pempty[prd[p] - NTBASE] == WHOKNOWS)
            invariant 1 <= p <= np && pempty[..] == m
            invariant forall k :: 0 <= k < p - 1 ==> Good(m, true, Rhs(g, i)[k])
          {
            p := p + 1;
          }
          if p == np {
            RuleTarget(g, m, true, i);
            FewerZeros(m, prd[0] - NTBASE, OK);
            pempty[prd[0] - NTBASE] := OK;
            assert pempty[..] == m[prd[0] - NTBASE := OK];
            continue more;
          }
          assert !Good(m, true, Rhs(g, i)[p - 1]);
        }
        i := i + 1;
      }
      ExactMarks(g, m, true);
      return;
    }
  }

  /** The test of one rule in the second pass: is every right-hand side symbol known to be empty? */
  method EmptyRhs(g: Grammar, i: nat, pempty: array<int>) returns (empty: bool)
    requires WellFormed(g) && pempty.Length == g.nnonter + 1 && i < |g.prods| && HasRule(g, i)
    requires forall k :: 0 <= k < pempty.Length ==> pempty[k] == WHOKNOWS || pempty[k] == EMPTY
    ensures empty <==> GoodRhs(g, pempty[..], false, i)
  {
    RuleShape(g, i);
    var prd := g.prods[i];
    assert forall k :: 1 <= k < |prd| - 1 ==> prd[k] == Rhs(g, i)[k - 1] && prd[k] in Rhs(g, i);
    var np := |prd| - 1;
    for p := 1 to np
      invariant forall k :: 0 <= k < p - 1 ==> Good(pempty[..], false, Rhs(g, i)[k])
    {
      if prd[p] < NTBASE || pempty[prd[p] - NTBASE] != EMPTY {
        assert !Good(pempty[..], false, Rhs(g, i)[p - 1]);
        return false;
      }
    }
    return true;
  }

  /** Second pass of cempty: mark the nonterminals that derive the empty string. */
  method MarkEmpty(g: Grammar, pempty: array<int>)
    requires WellFormed(g) && pempty.Length == g.nnonter + 1
    modifies pempty
    ensures forall i :: 0 <= i < pempty.Length ==> (pempty[i] == EMPTY <==> DerivesEmpty(g, NTBASE + i))
    ensures forall i :: 0 <= i < pempty.Length ==> pempty[i] == EMPTY || pempty[i] == WHOKNOWS
  {
    AryFil(pempty, g.nnonter + 1, WHOKNOWS);
    var nprod := |g.prods|;
    label again: while true
      invariant Sound(g, pempty[..], false)
      invariant forall k :: 0 <= k < pempty.Length ==> pempty[k] == WHOKNOWS || pempty[k] == EMPTY
      decreases Zeros(pempty[..])
    {
      ghost var m := pempty[..];
      assert !Good(m, false, Rhs(g, 0)[1]);
      for i := 1 to nprod
        invariant pempty[..] == m && Stuck(g, m, false, i)
      {
        RuleShape(g, i);
        var lhs := g.prods[i][0] - NTBASE;
        if pempty[lhs] != WHOKNOWS {
          continue;
        }
        var empty := EmptyRhs(g, i, pempty);
        if empty {
          RuleTarget(g, m, false, i);
          FewerZeros(m, lhs, EMPTY);
          pempty[lhs] := EMPTY;
          assert pempty[..] == m[lhs := EMPTY];
          continue again;
        }
      }
      ExactMarks(g, m, false);
      return;
    }
  }

  /** cempty: ok says that no nonterminal other than $accept was reported as deriving
      no token string; the generator exits when one was. */
  method Cempty(g: Grammar) returns (ok: bool, pempty: array<int>)
    requires WellFormed(g)
    ensures fresh(pempty) && pempty.Length == g.nnonter + 1
    ensures ok <==> Productive(g)
    ensures ok ==> forall i :: 0 <= i < pempty.Length ==>
      pempty[i] == if DerivesEmpty(g, NTBASE + i) then EMPTY else WHOKNOWS
  {
    pempty := new int[g.nnonter + 1];
    MarkProductive(g, pempty);
    ok := true;
    for i := 0 to g.nnonter + 1
      invariant ok <==> forall k :: 1 <= k < i ==> pempty[k] == OK
    {
      if i == 0 {
        continue;
      }
      if pempty[i] != OK {
        ok := false;
      }
    }
    forall s | NTBASE < s <= NTBASE + g.nnonter
      ensures pempty[s - NTBASE] == OK <==> DerivesTokens(g, s)
    {
      assert NTBASE + (s - NTBASE) == s;
    }
    assert !ok ==> exists k :: 1 <= k <= g.nnonter && pempty[k] != OK && !DerivesTokens(g, NTBASE + k);
    if ok {
      MarkEmpty(g, pempty);
    }
  }
}
