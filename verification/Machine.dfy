/** runMachine (cmd/goyacc/yacc.go): finds the state and token at which a token sequence is
    rejected, on the uncompressed rows. */
module Machines {
  import opened Grammars
  import opened Items
  import opened KernelStore
  import opened Actions
  import opened Parsing

  datatype Verdict = Going | Error | Accept | NoInput

  ghost predicate RowsFit(g: Grammar, m: Automaton, rows: seq<Row>) {
    && WellFormed(g) && IsCollection(g, m) && 1 < |m.kernels| == |rows| < NSTATES && Trans(g, m, 0, Start(g), 1)
    && forall i :: 0 <= i < |rows| ==> RowOk(g, m, i, rows[i])
  }

  /** Where a symbol's action is in a row. */
  function Slot(g: Grammar, x: int): int {
    if x >= NTBASE then x - NTBASE + g.ntokens else x
  }

  predicate Readable(g: Grammar, x: int) {
    1 <= x <= g.ntokens || NTBASE < x <= NTBASE + g.nnonter
  }

  /** The action of a row on a symbol can be taken. */
  lemma RowFits(g: Grammar, m: Automaton, i: int, row: Row, x: int)
    requires WellFormed(g) && RowOk(g, m, i, row) && Readable(g, x) && |m.kernels| < NSTATES
    ensures 0 <= Slot(g, x) < |row.actions|
    ensures ActionOk(g, m, i, x, RowAction(row, Slot(g, x))) && RowAction(row, Slot(g, x)) != 0
    ensures x >= NTBASE && Expects(g, m, i, x) ==> IsShift(RowAction(row, Slot(g, x)))
  {
    if x >= NTBASE {
      var c: nat := x - NTBASE;
      assert RowGoto(g, m, i, row, c) && NTBASE + c == x;
    }
  }

  /** What runMachine keeps between turns. */
  datatype View = View(stack: seq<int>, state: int, token: int, i: nat)

  /** One turn: the token at hand, or else the next of the input, meets the row of the state. */
  ghost function TurnOf(g: Grammar, rows: seq<Row>, tokens: seq<int>, v: View): (Verdict, View) {
    if v.token < 0 && v.i >= |tokens| then (NoInput, v)
    else
      var w := if v.token < 0 then View(v.stack, v.state, tokens[v.i], v.i + 1) else v;
      var c := Slot(g, w.token);
      var action := if 0 <= w.state < |rows| && 0 <= c < |rows[w.state].actions| then RowAction(rows[w.state], c)
                    else ERRCODE;
      if action == ACCEPTCODE then (Accept, w)
      else if action == ERRCODE then (Error, w)
      else if action > 0 then (Going, View(w.stack + [w.state], action, -1, w.i))
      else (Going, Reduced(g, w, 0 - action))
  }

  /** A reduction by rule r: its right-hand side comes off, its left-hand side is the token at hand. */
  ghost function Reduced(g: Grammar, v: View, r: int): View {
    if 0 <= r < |g.prods| && HasRule(g, r) && |Rhs(g, r)| <= |v.stack| && v.i > 0 then
      var states := v.stack + [v.state];
      var n := |states| - |Rhs(g, r)|;
      View(states[..n - 1], states[n - 1], Lhs(g, r), v.i - 1)
    else v
  }

  /** A number of turns, or fewer if one of them ends the run. */
  ghost function TurnsFor(g: Grammar, rows: seq<Row>, tokens: seq<int>, v: View, fuel: nat): (Verdict, View)
    decreases fuel
  {
    if fuel == 0 then (Going, v)
    else
      var (verdict, w) := TurnOf(g, rows, tokens, v);
      if verdict != Going then (verdict, w) else TurnsFor(g, rows, tokens, w, fuel - 1)
  }

  class Machine {
    const g: Grammar
    const rows: seq<Row>
    const tokens: seq<int>
    var stack: seq<int>
    var state: int
    var token: int
    var i: nat
    ghost const m: Automaton
    ghost var syms: seq<int>
    ghost var trees: seq<Tree>
    /** The tree of a left-hand side that waits to be shifted. */
    ghost var reduced: seq<Tree>

    /** How much of the input is in the trees. */
    ghost function Read(): nat
      reads this
    {
      if token >= 0 && reduced == [] && i > 0 then i - 1 else i
    }

    ghost predicate Valid()
      reads this
    {
      && RowsFit(g, m, rows) && (forall k :: 0 <= k < |tokens| ==> Readable(g, tokens[k])) && i <= |tokens|
      && Path(g, m, stack + [state], syms) && ValidAll(g, trees + reduced) && Roots(g, trees) == syms
      && Yields(trees + reduced) == tokens[..Read()]
      && Pending()
    }

    /** The token at hand is the next of the input, or the left-hand side of a reduction, for
        which there is a goto. */
    ghost predicate Pending()
      reads this
    {
      if reduced != [] then |reduced| == 1 && Readable(g, token) && token == Root(g, reduced[0]) &&
        Expects(g, m, state, token) && token >= NTBASE
      else token == -1 || (0 < i <= |tokens| && token == tokens[i - 1])
    }

    constructor (g: Grammar, rows: seq<Row>, tokens: seq<int>, ghost m: Automaton)
      requires RowsFit(g, m, rows) && forall k :: 0 <= k < |tokens| ==> Readable(g, tokens[k])
      ensures Valid() && this.g == g && this.m == m && this.rows == rows && this.tokens == tokens && i == 0
      ensures stack == [] && state == 0
    {
      this.g, this.rows, this.tokens, this.m := g, rows, tokens, m;
      stack, state, token, i := [], 0, -1, 0;
      syms, trees, reduced := [], [], [];
    }

    /** The symbol that the next turn looks at. */
    ghost function Symbol(): int
      reads this
    {
      if token >= 0 then token else if i < |tokens| then tokens[i] else ENDTOK
    }

    /** The row's action on it. */
    ghost function Move(): int
      reads this
    {
      if 0 <= state < |rows| &&
        0 <= Slot(g, Symbol()) < |rows[state].actions| then RowAction(rows[state], Slot(g, Symbol())) else ERRCODE
    }

    ghost function Now(): View
      reads this
    {
      View(stack, state, token, i)
    }

    /** One turn of the loop. */
    method Turn() returns (verdict: Verdict)
      requires Valid()
      modifies this
      ensures Valid() && (verdict, Now()) == TurnOf(g, rows, tokens, old(Now()))
      ensures verdict != NoInput ==>
        verdict == if old(Move()) == ACCEPTCODE then Accept else if old(Move()) == ERRCODE then Error else Going
      ensures verdict == Going && old(Move()) > 0 ==>
        stack == old(stack) + [old(state)] && state == old(Move()) && token == -1
      ensures verdict == Going && old(Move()) < 0 ==>
        PoppedBy(g, 0 - old(Move()), old(stack) + [old(state)], stack + [state], token)
      ensures verdict == NoInput ==> old(token) < 0 && old(i) == |tokens| && stack == old(stack) && state == old(state)
      ensures verdict != NoInput ==> old(token) >= 0 || old(i) < |tokens|
      ensures verdict == Accept ==> Derives(g, [Start(g)], tokens[..Read()]) && token == ENDTOK
      ensures verdict == Error ==> token >= 0 && Move() == ERRCODE
    {
      hide RowsFit, Expects, Trans;
      if token < 0 {
        if i >= |tokens| {
          return NoInput;
        }
        token := tokens[i];
        i := i + 1;
      }
      StateFits();
      var row := rows[state];
      var c := token;
      if token >= NTBASE {
        c := token - NTBASE + g.ntokens;
      }
      var action := row.actions[c];
      if action == 0 {
        action := row.defaultAction;
      }
      if action == ACCEPTCODE {
        Accepting();
        return Accept;
      } else if action == ERRCODE {
        return Error;
      } else if action > 0 {
        Shift(action);
      } else {
        Reduce(0 - action);
      }
      verdict := Going;
    }

    /** runMachine, for at most a given number of turns: the state and the symbol at which the
        tokens are rejected. */
    method Run(fuel: nat) returns (verdict: Verdict)
      requires Valid()
      modifies this
      ensures Valid() && (verdict == Error ==> Move() == ERRCODE && token >= 0)
      ensures verdict == Accept ==> Derives(g, [Start(g)], tokens[..Read()])
      ensures (verdict, Now()) == TurnsFor(g, rows, tokens, old(Now()), fuel)
    {
      hide RowsFit, TurnOf;
      verdict := Going;
      for k := 0 to fuel
        invariant Valid() && verdict == Going
        invariant TurnsFor(g, rows, tokens, old(Now()), fuel) == TurnsFor(g, rows, tokens, Now(), fuel - k)
      {
        verdict := Turn();
        if verdict != Going {
          return;
        }
      }
    }

    lemma StateFits()
      requires Valid() && token >= 0
      ensures 0 <= state < |rows| && 0 <= Slot(g, token) < |rows[state].actions| && Readable(g, token)
      ensures ActionOk(g, m, state, token, RowAction(rows[state], Slot(g, token)))
      ensures RowAction(rows[state], Slot(g, token)) != 0
      ensures reduced != [] ==> IsShift(RowAction(rows[state], Slot(g, token)))
    {
      assert stack + [state] == (stack + [state])[..|syms|] + [state];
      PathState(g, m, stack + [state], syms, |syms|);
      RowFits(g, m, state, rows[state], token);
    }

    lemma Accepting()
      requires Valid() && state == 1 && token == ENDTOK && reduced == []
      ensures Derives(g, [Start(g)], tokens[..Read()])
    {
      assert trees + reduced == trees;
      assert StackOk(g, m, stack + [state], syms, trees, tokens[..Read()]);
      assert (stack + [state])[|syms|] == 1;
      StackAccept(g, m, stack + [state], syms, trees, tokens[..Read()]);
    }

    /** A shift, of a token or of the left-hand side just reduced. */
    method Shift(action: int)
      requires Valid() && token >= 0 && Trans(g, m, state, token, action)
      modifies this
      ensures Valid() && stack == old(stack) + [old(state)] && state == action && token == -1 && i == old(i)
    {
      hide RowsFit, Expects, Trans;
      ghost var read := Read();
      if reduced == [] {
        reduced := [Leaf(token)];
        assert trees + [] == trees;
        YieldsConcat(trees, [Leaf(token)]);
        YieldsOne(Leaf(token));
        assert tokens[..i] == tokens[..read] + [token];
        LeafValid(g, token);
      }
      assert Roots(g, trees + reduced) == syms + [token];
      trees := trees + reduced;
      reduced := [];
      assert trees + [] == trees;
      syms := syms + [token];
      stack := stack + [state];
      state := action;
      token := -1;
      StackGrows(g, m, stack, syms, state);
    }

    /** A reduction: the right-hand side comes off the stack, the left-hand side becomes the
        token at hand, and the token read before goes back to the input. */
    method Reduce(r: int)
      requires Valid() && token >= 0 && reduced == [] && r > 0 && Reducible(g, m, state, r)
      modifies this
      ensures Valid() && reduced != [] && PoppedBy(g, r, old(stack) + [old(state)], stack + [state], token)
      ensures i == old(i) - 1 && Now() == Reduced(g, old(Now()), r)
    {
      hide RowsFit, Expects, Trans;
      ghost var states, read := stack + [state], Read();
      assert trees + reduced == trees;
      assert StackOk(g, m, states, syms, trees, tokens[..read]);
      Popping(r);
      ghost var n := |syms| - |Rhs(g, r)|;
      var prod := g.prods[r];
      var rhsLen := |prod| - 2;
      if rhsLen > 0 {
        var k := |stack| - rhsLen;
        state := stack[k];
        stack := stack[..k];
      }
      if token >= 0 {
        i := i - 1;
      }
      token := prod[0];
      assert stack + [state] == states[..n + 1];
      reduced := [Node(r, trees[n..])];
      syms := syms[..n];
      trees := trees[..n];
    }

    /** What a reduction leaves behind. */
    lemma Popping(r: int)
      requires Valid() && token >= 0 && reduced == [] && r > 0 && Reducible(g, m, state, r)
      ensures 0 < r < |g.prods| && HasRule(g, r) && |g.prods[r]| - 2 == |Rhs(g, r)| <= |syms| == |trees| == |stack|
      ensures g.prods[r][0] == Lhs(g, r) && NTBASE < Lhs(g, r) <= NTBASE + g.nnonter && i > 0 && Read() == i - 1
      ensures var n := |syms| - |Rhs(g, r)|;
        && Path(g, m, (stack + [state])[..n + 1], syms[..n]) && Expects(g, m, (stack + [state])[n], Lhs(g, r))
        && ValidAll(g, trees[..n] + [Node(r, trees[n..])]) && Roots(g, trees[..n]) == syms[..n]
        && Root(g, Node(r, trees[n..])) == Lhs(g, r) && Yields(trees[..n] + [Node(r, trees[n..])]) == tokens[..i - 1]
    {
      hide IsCollection, Expects, Trans, Reducible, WellFormed;
      var states, read := stack + [state], tokens[..i - 1];
      assert trees + reduced == trees;
      assert states[|syms|] == state;
      RowsCollection(g, m, rows);
      ReducibleRule(g, m, state, r);
      ReduceExposes(g, m, states, syms, r);
      RuleShape(g, r);
      var n := |syms| - |Rhs(g, r)|;
      PathPrefix(g, m, states, syms, n);
      NodeOnTop(g, syms, trees, n, r);
    }
  }

  /** The right-hand side of rule r has come off the stack, and its left-hand side is next. */
  ghost predicate PoppedBy(g: Grammar, r: int, states: seq<int>, states': seq<int>, token: int) {
    && 0 < r < |g.prods| && HasRule(g, r) && |Rhs(g, r)| < |states| && states' == states[..|states| - |Rhs(g, r)|]
    && token == Lhs(g, r)
  }

  lemma RowsCollection(g: Grammar, m: Automaton, rows: seq<Row>)
    requires RowsFit(g, m, rows)
    ensures WellFormed(g) && IsCollection(g, m)
  {
  }

  lemma LeafValid(g: Grammar, x: int)
    ensures ValidAll(g, [Leaf(x)]) && Roots(g, [Leaf(x)]) == [x]
  {
  }

  lemma StackGrows(g: Grammar, m: Automaton, stack: seq<int>, syms: seq<int>, s: int)
    requires stack != [] && syms != [] && Path(g, m, stack, syms[..|syms| - 1])
    requires Trans(g, m, stack[|stack| - 1], syms[|syms| - 1], s)
    ensures Path(g, m, stack + [s], syms)
  {
  }

  /** The trees of a right-hand side become the tree of the left-hand side. */
  lemma NodeOnTop(g: Grammar, syms: seq<int>, trees: seq<Tree>, n: nat, r: nat)
    requires ValidAll(g, trees) && Roots(g, trees) == syms && n <= |syms| && HasRule(g, r) && syms[n..] == Rhs(g, r)
    ensures ValidAll(g, trees[..n] + [Node(r, trees[n..])]) && Roots(g, trees[..n]) == syms[..n]
    ensures Root(g, Node(r, trees[n..])) == Lhs(g, r)
    ensures Yields(trees[..n] + [Node(r, trees[n..])]) == Yields(trees)
  {
    var node := Node(r, trees[n..]);
    assert Roots(g, trees[n..]) == syms[n..];
    assert Valid(g, node);
    assert trees == trees[..n] + trees[n..];
    YieldsConcat(trees[..n], trees[n..]);
    YieldsConcat(trees[..n], [node]);
    YieldsOne(node);
  }
}
