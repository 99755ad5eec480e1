# Verified models of the tool algorithms

Dafny models of the algorithms behind the command-line tools and libraries of this repository, with
machine-checked proofs of what they compute. `dafny verify dfyconfig.toml` checks the whole project.

**The parser generator (`cmd/goyacc/yacc.go`)** is followed from the grammar to the parser. The reference
meaning is that of the textbook: derivations of a context-free grammar, derivation trees, the LR(0)
automaton, the least LR(1) closure. Against it the generator's stages are proved in the form they are
written in, as loops over arrays and fields that are updated in place:

| file | stage |
|---|---|
| `Lkset`, `Grammars`, `Nullable`, `Firsts` | token sets on machine words, derivations and trees, nullable symbols, FIRST |
| `Items`, `Closure` | the LR(0) automaton as a reference; the LR(1) closure in the working sets |
| `Kernels`, `States`, `Packing`, `Stagen` | storing and merging states, first-fit packing, the state generation loop |
| `Rounds`, `Propagation`, `LostLookahead` | what a round of that loop does, which lookaheads runs of rounds end with, one that is lost |
| `Rows`, `Gotos`, `Optimize` | action rows with conflicts and defaults, goto columns, the shared action array |
| `Tables`, `Parser`, `Machine` | reading the tables back, the two parsers |
| `Capacity` | the states of a grammar counted without the generator, and the room that tables need |
| `Completeness`, `Prefixes`, `Deciding` | the parser accepts every sentence; what it has read begins one; it ends on every input |
| `Pipeline` | everything together |

The two ends meet in `Pipeline`. For every grammar, whatever the tables accept is derived by the start symbol, and what
the parser has read is at all times the beginning of a sentence. When the grammar has no LALR(1) conflict and no
lookahead can be lost, the parser decides the language: on every input it comes to an end, accepts what the start symbol
derives and rejects everything else, and it rejects at the first token with which no sentence goes on
(`GenerateAndParse`, `InputDecided`). That it ends is proved by contradiction: if it reduced for ever before a token,
what it has read could be completed to a sentence on which it would do the same (`Deciding.NotForEver`).
The tables say of every state and token what the LR(1) closure of the
state, the precedences and the order of the rules ask for (`TablesReduce`, `TablesShift`); and every reduction is
right in some sentential form (`ReductionJustified`). No grammar is refused without a reason: the tables are made for
every grammar without meaningless nonterminals whose states, counted in the LR(0) collection, leave room for them
(`Generate`, `RoomFor`); this holds in particular for every grammar with few enough symbols on its right-hand sides
(`SmallHasRoom`).

**Coverage instrumentation (`cmd/cover/cover.go`)** is a rewriting of statement trees. `CoverRuns` gives the
statements a meaning: a run is a trace of events, and what a program does next may depend in any way on the
events so far, including calls of other functions, panics, labelled jumps and fallthrough. Counters are
invisible to the program. The theorems hold for every program, every such dependence and every length of run,
so they also cover runs that do not end. `Covering` says what the recorded blocks cover: each statement of each list is
in exactly one block, each block is that of the statements it counts and of no others, and no list is without a counter.

**Graph algorithms**: `Digraph` and `AllPaths` (strongly connected components, path search, transposition and
allpaths of `cmd/digraph/digraph.go`), `HappensBefore` and `Races` (the happens-before queries with their cache and
the race table of `concurrency/rfg.go` and `concurrency/rfgplus.go`), with the walks they share in `Walks`.

**Stream and text machines**: `Format` (merging selections into formatted text), `Runs`, `Spots` and `Index`
(the three-level reduction of the identifier index), `Txtar` (archives as text), `Tab` (the tab filter).

Code that changes state is a class or an array method proved against a specification function or predicate; the
lemmas are about those. Where Go iterates over a map, the model takes the elements in an arbitrary order, and the
contracts hold for all of them.

Five promises turn out not to hold of the code everywhere; each has its input and the condition under which it does
hold.

- allpaths prints every edge on a walk to the target, for every order of successors, if and only if the graph has no
  trap: a path into a node that reaches the target only back through the path (`AllPaths.CompleteExactly`; an input:
  `CycleTraps`). The absence of cycles is sufficient, but not necessary (`CycleDoesNotTrap`).
- Not every statement of an instrumented list is in a block: a bare block that stands behind a statement which ends a basic
  block starts where its own counter does, and has none in the list around it. These are the only exceptions
  (`CoverFile.StatementsCovered`, with the condition `Bare`; an input: `BareUncovered`).
- `Txtar.Parse` fails exactly on data with a line that is marker and end of marker at once, `-- --`.
- stagen can lose a lookahead: line 1760 of yacc.go overwrites the mark that line 1997 has just set on the state being
  done (`LostLookahead.LookaheadLost`). Nothing is lost when, in every state that has a goto to itself, closure adds each
  reduction before all items that this goto is made of, as it does for earlier rules of the same nonterminal
  (`Propagation.LooksExact`, with the condition `NoneMayLose` on the LR(0) automaton alone): so the grammar that loses a
  lookahead keeps it when two of its rules change places (`KeptLookahead.NothingLost`). The other direction is not
  claimed: a state that fails the condition loses something only if the goto to itself brings lookaheads that it passes
  on and that no later round brings again, which depends on the order of the states.
- stin, when a state has no place in the action array, reaches one cell past its end (line 2763) before it can report
  the failure of line 2814 (`Optimizer.Stin`, `AlwaysRunsPast`). It always has a place when the spans of all shifts and
  goto columns add up to less than the length of the array (`Optimizer.Callopt`).

## Model

| member | source | states |
|---|---|---|
| Lkset.BitSet | cmd/goyacc/yacc.go:3101-3103 | the bit of a token is set exactly when the token is in the set the words stand for |
| Lkset.SetBit | cmd/goyacc/yacc.go:3105-3107 | adds exactly one token to the set the words stand for |
| Lkset.MkSet | cmd/goyacc/yacc.go:3109 | a fresh word array stands for the empty set |
| Lkset.SetUnion | cmd/goyacc/yacc.go:3111-3122 | the words become those of the union, and the result says whether the set grew; the two slices may be the same |
| Grammars.TreeDerives | cmd/goyacc/yacc.go:1644-1696 | a derivation tree yields what its root derives; with DerivationForest the reference meaning of every stage |
| Grammars.DerivationForest | cmd/goyacc/yacc.go:1644-1696 | every derivation has its trees |
| Productions.Cpres | cmd/goyacc/yacc.go:1518-1553 | the productions of each nonterminal, all of them and in rule order; ok exactly when every nonterminal has one |
| Nullable.ClosedCovers | cmd/goyacc/yacc.go:1559-1639 | a closed marking covers everything with a wanted derivation, by induction over derivations |
| Nullable.MarkProductive | cmd/goyacc/yacc.go:1565-1590 | the restarted fixpoint marks exactly the nonterminals that derive a token string |
| Nullable.MarkEmpty | cmd/goyacc/yacc.go:1609-1638 | and then exactly those that derive the empty string |
| Nullable.Cempty | cmd/goyacc/yacc.go:1559-1639 | reports an error exactly when some nonterminal derives no token string; otherwise pempty is exact |
| Firsts.InitialFill | cmd/goyacc/yacc.go:1649-1672 | the first half of cpfir on bit arrays: the tokens that open a production, past nullable symbols |
| Firsts.OnePass | cmd/goyacc/yacc.go:1674-1696 | one round of unions stays below every solution, and a round without change ends at a solution |
| Firsts.LeastFirst | cmd/goyacc/yacc.go:1644-1696 | the loop ends, and its sets are the least solution of the FIRST equations |
| Firsts.Cpfir | cmd/goyacc/yacc.go:1644-1696 | pfirst is exact: t is in it if and only if the nonterminal derives a string beginning with t |
| Lookaheads.RestLookExact | cmd/goyacc/yacc.go:1850-1869 | walking over the symbols after the dot collects exactly the tokens that can follow |
| WorkingSets.Workspace.Gather | cmd/goyacc/yacc.go:1834-1871 | the lookaheads passed on for one nonterminal, from all flagged entries; flags reset, nothing else changed |
| WorkingSets.Workspace.Receive | cmd/goyacc/yacc.go:1879-1913 | one production receives the set; work says exactly when an entry must be closed again |
| WorkingSets.Workspace.Spread | cmd/goyacc/yacc.go:1873-1914 | all productions of the nonterminal receive it, and no entry that was closed is left unserved |
| WorkingSets.Workspace.CloseEntry | cmd/goyacc/yacc.go:1821-1915 | the body of the outer loop; the termination measure falls whenever the sets grow |
| WorkingSets.Workspace.Closure | cmd/goyacc/yacc.go:1804-1916 | closure ends; one entry per item, kernel entries first, the productions of a nonterminal in rule order, each unflagged item served |
| WorkingSets.ClosureItems | cmd/goyacc/yacc.go:1804-1916 | lookaheads on or off, the items are exactly the LR(0) closure of the kernel |
| WorkingSets.ClosureIsLeast | cmd/goyacc/yacc.go:1804-1916 | with lookaheads on, the result is the least LR(1) closure of the kernel |
| Kernels.SameCoreSameSet | cmd/goyacc/yacc.go:1969-1985 | sorted kernels compare equal position by position exactly when they are the same set |
| KernelStore.InsertionSort | cmd/goyacc/yacc.go:1944-1958 | the insertion sort of state: sorted and a permutation, nothing else moved |
| KernelStore.NotKnown | cmd/goyacc/yacc.go:1962-1985 | when no state entered by c has the kernel, no state at all has it, so searching one chain is enough |
| StateLists.StateList.PutItem | cmd/goyacc/yacc.go:2025-2046 | the advanced item is appended to the state being built |
| StateLists.StateList.Lookup | cmd/goyacc/yacc.go:1962-1985 | the search along mstates finds the state with these items, if there is one |
| StateLists.StateList.FixLooks | cmd/goyacc/yacc.go:1990-2001 | an existing state takes in the lookaheads of the discarded one, and is raised to MUSTDO exactly if some set grew |
| StateLists.StateList.State | cmd/goyacc/yacc.go:1936-2023 | returns the state with the built kernel: the old one if there is one, otherwise a new one; kernels stay pairwise different |
| LookaheadMeaning.ItemsMean | cmd/goyacc/yacc.go:1712-1799 | an item in the closure of a state has a sentential form for every path to the state |
| LookaheadMeaning.JustifiedClosed | cmd/goyacc/yacc.go:1712-1799 | the justified lookaheads are closed under the LR(1) closure rule |
| Collecting.PickedIsGoto | cmd/goyacc/yacc.go:1750-1774 | the items collected for a symbol are exactly the goto of the closure |
| Collecting.ClosureJust | cmd/goyacc/yacc.go:1747-1774 | closure keeps every lookahead justified |
| Generating.Generator.Take | cmd/goyacc/yacc.go:1751-1781 | one entry of the working sets: passed over when its symbol has been seen, noted as MUSTLOOKAHEAD when low, otherwise its goto entered, with all other states unchanged |
| Generating.Generator.TakeState | cmd/goyacc/yacc.go:1744-1781 | one state is closed and all its gotos entered, as one round of a run; temp1 is its goto row; the termination rank falls |
| Generating.Generator.DoState | cmd/goyacc/yacc.go:1740-1796 | and its row is packed first fit behind those of the states before, so that every state done so far can still be read back; when it fits nowhere, the rows before it stay as they are |
| Generating.Generator.Stagen | cmd/goyacc/yacc.go:1712-1799 | the restarted loop ends, with the complete collection: start state, closed under goto, no kernel twice, one accessing symbol per state, every state reached, lookaheads justified, gotos packed, and left by a run of rounds; or with full tables and a goto to one more state, or with the rows of the first states packed and the next one fitting nowhere |
| Generating.PackedUnique | cmd/goyacc/yacc.go:1792-1794 | the automaton decides what the packed table holds and where each row is |
| Generating.PackedBound | cmd/goyacc/yacc.go:1792-1794 | the rows of n states take up no more than n times the number of nonterminals |
| Capacity.CollectionCount | cmd/goyacc/yacc.go:1712-1799 | a complete collection has exactly as many states as there are kernels that gotos reach from the start item |
| Capacity.StatesBounded | cmd/goyacc/yacc.go:1712-1799 | no more than two to the number of right-hand side symbols |
| Capacity.TooManyStates | cmd/goyacc/yacc.go:2010-2012 | too many states are reported only of a grammar with at least NSTATES states |
| Capacity.StuckNeedsRoom | cmd/goyacc/yacc.go:2147 | a row that fits nowhere is reported only when the rows of all states, side by side, are longer than the table |
| Propagation.StoredHasSpread | cmd/goyacc/yacc.go:1735-1799 | over every run: each stored lookahead has spread to its item, from the symbols behind a dot, within closures and across gotos |
| Propagation.RunPasses | cmd/goyacc/yacc.go:1735-1799 | over every run: each state that is not waiting has handed the closure of its lookaheads to all its gotos, except states that may have lost their mark |
| Propagation.OverwrittenLoses | cmd/goyacc/yacc.go:1758-1762 | a mark is overwritten only in a state with a goto to itself to which closure adds a reduction that need not come before the items of that goto: a condition on the LR(0) automaton |
| Propagation.LooksExact | cmd/goyacc/yacc.go:1735-1799 | when the automaton has no such state, a finished run has stored exactly the lookaheads that spread |
| Propagation.ClosureExact | cmd/goyacc/yacc.go:1804-1916 | and closure gives every item of every state exactly the lookaheads that spread to it |
| Propagation.SpreadsAreLalr | cmd/goyacc/yacc.go:1735-1799 | what spreads is LALR(1): the canonical LR(1) lookaheads, merged over all paths to a state |
| LostLookahead.LookaheadLost | cmd/goyacc/yacc.go:1758-1762 | with the rules A: x A B, then A: (empty), and B: b, every run, in whatever order, ends without b behind x A, although it spreads there: line 1760 overwrites the mark that line 1997 has set |
| KeptLookahead.NothingLost | cmd/goyacc/yacc.go:1758-1762 | with the two rules of A in the other order no state may lose its mark |
| Generating.Generator.StoredGoto | cmd/goyacc/yacc.go:1792-1794 | every needed goto on a nonterminal is at amem[indgo[i] + c] |
| Packing.TryAt | cmd/goyacc/yacc.go:2110-2120 | the test of a position: exactly whether the row fits there |
| Packing.Store | cmd/goyacc/yacc.go:2126-2135 | the row's nonzero cells are stored, all others stay |
| Packing.Apack | cmd/goyacc/yacc.go:2087-2149 | first fit: the least position where the row fits, stored there, leading zeros included, and nothing else changed; ok is false exactly when it fits nowhere |
| Packing.FirstFitUnique | cmd/goyacc/yacc.go:2087-2149 | row and table decide the position and the table that results |
| Packing.FirstFitBound | cmd/goyacc/yacc.go:2087-2149 | the part of the table in use grows by no more than the length of the row |
| Actions.SettledFrom | cmd/goyacc/yacc.go:2199-2229 | whatever the conflicts, a cell ends as the shift, a possible reduction, or a nonassociative error |
| Actions.EarliestRuleWins | cmd/goyacc/yacc.go:2199-2229 | among reductions the first rule of the grammar wins |
| Actions.PackedFields | cmd/goyacc/yacc.go:136-148 | precedence and associativity come back from the packed level, whatever its flags and type, and every level is packed from one of each |
| Actions.OneReductionResolved | cmd/goyacc/yacc.go:2247-2275 | a shift against one rule is decided by the precedences that are packed in the two levels, then by the token's associativity |
| RowWriting.RowWriter.Precftn | cmd/goyacc/yacc.go:2247-2275 | the table entry becomes what the packed precedences and the associativity decide, and no other entry changes |
| RowWriting.RowWriter.FillGotos | cmd/goyacc/yacc.go:2176-2197 | the row gets exactly the transitions of the state, found again without lookaheads |
| RowWriting.RowWriter.FillReductions | cmd/goyacc/yacc.go:2199-2229 | the row gets the settled reductions of all entries |
| RowWriting.RowWriter.BestDefault | cmd/goyacc/yacc.go:2284-2315 | the most used reduction, none when error is shifted |
| RowWriting.RowWriter.Wract | cmd/goyacc/yacc.go:2281-2366 | the written row, exception list and shift list are exactly those of the full row |
| RowWriting.RowWriter.Output | cmd/goyacc/yacc.go:2154-2239 | every state's row is made, compressed and written, without changing the states |
| RowWriting.LookaheadsSuffice | cmd/goyacc/yacc.go:2168-2229 | lookaheads are computed only where a state needs them; no reduction is lost or gained by that |
| RowWriting.MadeRowOk | cmd/goyacc/yacc.go:2154-2239 | a written row only shifts along transitions, reduces complete items, and accepts in state 1 at the end |
| RowWriting.ReductionRow | cmd/goyacc/yacc.go:2199-2229 | without a shift the row reduces by the earliest rule called for, else takes the default |
| RowWriting.AcceptRow | cmd/goyacc/yacc.go:2195-2197 | state 1 accepts at the end of the input when nothing is reduced there |
| RowWriting.ShiftRow | cmd/goyacc/yacc.go:2176-2229 | with a shift and no reduction the row shifts |
| RowWriting.ConflictRow | cmd/goyacc/yacc.go:2247-2275 | against one reduction, the packed precedences and the token's associativity decide the row |
| GotoColumns.ExpectsByCorner | cmd/goyacc/yacc.go:2508-2557 | the dot stands before c in the closure exactly when a kernel item has it before a symbol with left corner c |
| GotoColumns.GotoWriter.MarkCorners | cmd/goyacc/yacc.go:2511-2529 | temp1 marks exactly the nonterminals with left corner c |
| GotoColumns.GotoWriter.Go2gen | cmd/goyacc/yacc.go:2508-2557 | tystate is the real goto column: nonzero exactly where the closure has the dot before c, and then the goto |
| GotoColumns.GotoWriter.Go2out | cmd/goyacc/yacc.go:2443-2503 | every column is compressed to a best default and the entries that differ |
| GotoColumns.CompressionKeeps | cmd/goyacc/yacc.go:2443-2503 | no goto is lost, and none is changed, by compression |
| Optimizing.Optimizer.constructor | cmd/goyacc/yacc.go:2588-2651 | the priority of a state or column is twice its number of entries and twice its largest key, one more for a column; nothing is placed yet |
| Optimizing.Optimizer.Nxti | cmd/goyacc/yacc.go:2681-2700 | the next item to place has the largest priority, the last of those that do, states after columns; or nothing is left |
| Optimizing.Optimizer.Gin | cmd/goyacc/yacc.go:2702-2746 | a goto column is placed where first all its cells are free; all that was placed before stays readable |
| Optimizing.Optimizer.TryShifts | cmd/goyacc/yacc.go:2759-2771 | the test of a place: fits, does not, or asks for the cell one past the end, each exactly when |
| Optimizing.Optimizer.Stin | cmd/goyacc/yacc.go:2748-2815 | the shifts of a state are placed, alone or shared with states that have the same shifts, exactly when some place fits, and at the least one; the cell past the end is reached exactly when none fits and some tried place leads there |
| Optimizing.AlwaysRunsPast | cmd/goyacc/yacc.go:2759-2765 | which is always so: when a state has no place, the error of line 2814 is never reported |
| Optimizing.Optimizer.Callopt | cmd/goyacc/yacc.go:2653-2661 | everything gets placed, or something that waits has no place in the array as the placements before it have left it; everything does when the spans of all shifts and columns add up to less than the length of the array |
| Optimizing.StuckDemand | cmd/goyacc/yacc.go:2702-2815 | whatever has been placed so far takes up no more than its spans, so what has no place shows that all spans together are too long |
| Spans.DemandBound | cmd/goyacc/yacc.go:2702-2815 | the spans are bounded by the numbers of states, tokens and nonterminals |
| Optimizing.SameLengthSameShifts | cmd/goyacc/yacc.go:2773-2797 | comparing lengths at a shared place does compare the shifts |
| Placement.ShiftIsOwn | cmd/goyacc/yacc.go:2748-2815 | a cell whose state is entered by the token is the state's own shift |
| Placement.GotoIsOwn | cmd/goyacc/yacc.go:2702-2746 | a cell whose state is entered by the nonterminal is the column's own entry |
| Tables.FillChk | cmd/goyacc/yacc.go:2846-2857 | Chk gives each state its accessing symbol |
| Tables.FillRules | cmd/goyacc/yacc.go:2835-2844 | R1 and R2 give each rule its left-hand side and length |
| Tables.ExceptionRead | cmd/goyacc/yacc.go:3487-3511 | the exception table gives a token's own entry, or the default reduction |
| Tables.DecodeShift | cmd/goyacc/yacc.go:3461-3483 | the parser's lookup finds the row's shift, and no other |
| Tables.DecodeGoto | cmd/goyacc/yacc.go:3578-3590 | every goto that is needed is recovered from Pgo, Act and Chk |
| Tables.DecodeAction | cmd/goyacc/yacc.go:3461-3511 | Pact, Act, Chk, Def and Exca together say what the state's row says |
| Parsing.StackReduce | cmd/goyacc/yacc.go:3559-3593 | a reduction never pops below the bottom, and exposes a state with a goto on the left-hand side |
| Parsing.StackAccept | cmd/goyacc/yacc.go:3506-3511 | on acceptance the stack is the start symbol, which derives the input |
| Parsing.Parser.Step | cmd/goyacc/yacc.go:3441-3593 | an error is reported exactly where the tables have one, acceptance likewise; else the token is shifted, or a right-hand side popped and the automaton's move over the left-hand side pushed; the stack stays a path of the automaton |
| Parsing.Parser.Parse | cmd/goyacc/yacc.go:3419-3594 | the steps taken are those of the tables, as many as allowed unless an action ends them; the stack derives what was read, and acceptance implies that the start symbol derives the input |
| Completeness.ReadsTree | cmd/goyacc/yacc.go:3441-3593 | tables that do what the LALR(1) lookaheads call for read any derivation tree: from a state that looks for its root to the state behind it |
| Completeness.AcceptsSentence | cmd/goyacc/yacc.go:3441-3593 | so they accept every sentence, given enough steps |
| Completeness.NeverRejects | cmd/goyacc/yacc.go:3441-3593 | and reject none, however few steps are given |
| Prefixes.ReadsOpen | cmd/goyacc/yacc.go:3441-3593 | such tables read a derivation tree up to any place in it, in a step for each leaf and node before the place |
| Prefixes.Completed | cmd/goyacc/yacc.go:3441-3593 | every path of the automaton, with trees for its symbols, begins a tree of the start symbol |
| Deciding.StackBegins | cmd/goyacc/yacc.go:3441-3593 | for every grammar, conflicts or not: what has been read to get a stack begins a sentence |
| Deciding.Reach | cmd/goyacc/yacc.go:3441-3593 | without conflicts the parser comes to the same stack on that sentence, in the same number of steps |
| Deciding.NotForEver | cmd/goyacc/yacc.go:3485-3593 | so it does not reduce for ever before some token |
| Deciding.AcceptedDerives | cmd/goyacc/yacc.go:3506-3511 | whatever stepping the tables accepts is a sentence, conflicts or not |
| Deciding.ParserDecides | cmd/goyacc/yacc.go:3419-3594 | after some number of steps, and for any larger number, the outcome is acceptance for a sentence and rejection for everything else |
| Deciding.ErrorPlace | cmd/goyacc/yacc.go:3512-3520 | the token at which the parser rejects cannot follow what it has read in any sentence |
| Machines.Machine.Turn | cmd/goyacc/yacc.go:2968-3013 | the same for one turn over the uncompressed rows, default reductions included |
| Machines.Machine.Run | cmd/goyacc/yacc.go:2963-3014 | the run is the turns that the rows ask for, up to the end or the number allowed; acceptance implies a derivation; an error is reported at the state and symbol without an action |
| Pipeline.Generate | cmd/goyacc/yacc.go:346-370 | all stages in order: from any grammar to tables that drive the parser and say what the rows say, with the LALR(1) lookaheads when none can be lost; refused as undefined exactly for grammars with a meaningless nonterminal; always made for other grammars that the tables have room for, and never for those with more states than they hold |
| Pipeline.OverflowNeedsRoom | cmd/goyacc/yacc.go:1712-1799 | when the sizes of a grammar and of its LR(0) collection leave room, stagen does not overflow |
| Pipeline.UnplaceableNeedsRoom | cmd/goyacc/yacc.go:2584-2815 | nor does anything stay without a place in the action array |
| Pipeline.SmallHasRoom | cmd/goyacc/yacc.go:1712-1799 | which a bound on the number of right-hand side symbols ensures |
| Pipeline.GenerateAndParse | cmd/goyacc/yacc.go:346-370 | generated and parsed: what is accepted is in the language of the grammar, and what is read begins a sentence; when there is no LALR(1) conflict and no lookahead can be lost, sentences are accepted and everything else is rejected, from some number of steps on, at the first token that does not go on; every meaningful grammar with room is parsed |
| Pipeline.InputDecided | cmd/goyacc/yacc.go:346-370 | the generated tables of such a grammar decide every input |
| Pipeline.SentencesAccepted | cmd/goyacc/yacc.go:346-370 | for such a grammar the generated parser accepts every sentence and rejects none |
| Pipeline.TablesObey | cmd/goyacc/yacc.go:2154-2366 | the tables of a grammar without conflicts reduce where the LALR(1) lookaheads call for it, shift where a token is expected, and accept |
| Pipeline.ReducesIsCalled | cmd/goyacc/yacc.go:2199-2229 | what the closures call for is what the LALR(1) lookaheads call for |
| Pipeline.TablesDrive | cmd/goyacc/yacc.go:2832-2961 | the compressed tables lead along the LR(0) automaton |
| Pipeline.TablesReduce | cmd/goyacc/yacc.go:2199-2229 | read from the tables, a reduction is the earliest one the LR(1) closure calls for |
| Pipeline.TablesShift | cmd/goyacc/yacc.go:2247-2275 | read from the tables, shifts and conflicts come out as the precedences say |
| Pipeline.ReductionJustified | cmd/goyacc/yacc.go:1712-1799 | every reduction that is called for is right in some sentential form |
| Digraph.Graph.AddNode | cmd/digraph/digraph.go:182-189 | the node is in, with the successors it had |
| Digraph.Graph.AddEdges | cmd/digraph/digraph.go:191-197 | exactly the given edges are added, and every end of an edge is a node |
| Digraph.Search.ReachableFrom | cmd/digraph/digraph.go:199-214 | exactly the nodes that a root reaches |
| Digraph.Graph.Transpose | cmd/digraph/digraph.go:216-225 | the same nodes with every edge turned round |
| Digraph.ForwardPass.Visit | cmd/digraph/digraph.go:233-242 | the recursive visit keeps the finishing order good: what reaches a node without reaching back finished later |
| Digraph.ForwardPass.VisitAll | cmd/digraph/digraph.go:230-245 | the finishing order lists every node once |
| Digraph.ComponentFound | cmd/digraph/digraph.go:247-270 | a search of the transposed graph from the node that finished last finds exactly its component |
| Digraph.Sccs | cmd/digraph/digraph.go:227-272 | a partition into exactly the strongly connected components; edges between two of them lead from earlier to later |
| Digraph.PathSearch.SomePath | cmd/digraph/digraph.go:315-343 | succeeds exactly when the target is reachable, and then prints a chain of edges to it |
| AllPaths.Marking.Visit | cmd/digraph/digraph.go:278-293 | the recursive visit does to the marks exactly what the specification does, for any order of successors |
| AllPaths.RunExact | cmd/digraph/digraph.go:278-293 | on any graph: a finished node is marked exactly when it is the target or a successor was marked before it, and every node reached is finished |
| AllPaths.Marking.AllPaths | cmd/digraph/digraph.go:274-313 | printed are exactly the edges from a node that was found to a marked one |
| AllPaths.PrintedExactly | cmd/digraph/digraph.go:296-304 | printed is every edge from a node that is reached, marked itself or not, to a marked one |
| AllPaths.PrintedEdges | cmd/digraph/digraph.go:274-313 | every printed edge lies on a walk to the target, on any graph; all of them are printed when the graph has no trap |
| AllPaths.CompleteExactly | cmd/digraph/digraph.go:274-313 | every such edge is printed for every order of successors exactly when the graph has no trap: a path into a node that reaches the target, but only back through the path |
| AllPaths.TrappedExactly | cmd/digraph/digraph.go:274-313 | equally: a path to a node from which every walk to the target meets the path again |
| AllPaths.AcyclicNotTrapped | cmd/digraph/digraph.go:274-313 | graphs without cycles have no trap |
| AllPaths.CycleTraps | cmd/digraph/digraph.go:274-313 | a graph with a trap, and an order of successors for which an edge is missing |
| AllPaths.CycleDoesNotTrap | cmd/digraph/digraph.go:274-313 | a cyclic graph without one, on which all edges are printed for every order |
| HappensBefore.EdgesExactly | concurrency/rfg.go:4670-4709 | the edges followed are those of program order, of a select to its cases, and, when asked for, of synchronisation |
| HappensBefore.ProducesExactly | concurrency/rfg.go:4542-4573 | which nodes produce for which objects: sends, closings, signals, broadcasts, finished tasks and cancellings |
| HappensBefore.EdgesMean | concurrency/rfg.go:4527-4573 | an edge is new exactly when its source has been reached and produces for an object that its target consumes |
| HappensBefore.RFGraph.AddEdge | concurrency/rfg.go:4527-4535 | all consumers of the given objects are appended to the edges of the producer, in order, and no other edges change |
| HappensBefore.RFGraph.AddHappenBeforeEdges | concurrency/rfg.go:4512-4595 | exactly the edges from reached producers to their consumers are added |
| HappensBefore.Queries.DFSVisit | concurrency/rfg.go:4670-4709 | with the shared visited map: found implies a path; not found implies that nothing newly visited leads to the target |
| HappensBefore.Queries.Search | concurrency/rfg.go:4670-4709 | a search of its own answers true exactly when there is a path |
| HappensBefore.Queries.CheckGoInLoops | concurrency/rfg.go:4649-4667 | true exactly when one access lies in a loop that starts the goroutine of the other |
| HappensBefore.Queries.DFSCanReach | concurrency/rfg.go:4609-4643 | over any sequence of queries the cached answer is the uncached, symmetric one |
| Races.HasCommonIntArray | concurrency/util.go:10-25 | true exactly when the lists share an element |
| Races.RFGPlusGraph.UpdateRecords | concurrency/rfgplus.go:154-189 | the access is recorded for each object it may touch, as read or write, and nothing is lost |
| Races.SameKey | concurrency/rfgplus.go:284-292 | two pairs of positions have the same key exactly when they are the same two positions |
| Races.RFGPlusGraph.AddRace | concurrency/rfgplus.go:274-338 | the key that names the two positions, the smaller first, enters the table exactly when the filters let it, and no entry changes |
| Races.RFGPlusGraph.Check | concurrency/rfgplus.go:395-449 | one pair: reported exactly when goroutines, locksets and order allow a race |
| Races.RFGPlusGraph.DetectRace | concurrency/rfgplus.go:340-476 | p and q with p <= q are a key exactly when some racing pair is at these two positions, and the entry is such a pair, whatever order the maps are walked in |
| Selections.Merger.constructor | godoc/format.go:155-166 | each selection's first boundary is ready |
| Selections.Merger.Next | godoc/format.go:173-209 | the least boundary not yet consumed, and the state moves past exactly that one |
| Selections.SegmentShows | godoc/format.go:173-209 | what is seen of a selection is its next boundary |
| Selections.CoversByParity | godoc/format.go:173-209 | between two boundaries a selection covers the text when an odd number has passed |
| Selections.FormatSelections | godoc/format.go:62-143 | every byte is written once and in order, with bit k set exactly when selection k covers it, for the first 64 selections (later ones have no bit); neighbours with the same bits are written together; link tags stand exactly at the link offsets |
| Selections.TiledWritesAll | godoc/format.go:62-143 | pieces that tile the text write the text |
| Selections.LineSelection.Next | godoc/format.go:215-232 | the iterator gives the next line |
| Selections.EachIsLine | godoc/format.go:215-232 | each segment is one line: it starts the text or follows a newline, and ends with the next newline or the text |
| Selections.LinesSelect | godoc/format.go:215-232 | the lines form a selection that covers the whole text |
| Selections.MatchSelection.Next | godoc/format.go:261-274 | the iterator gives the next match that is not empty |
| Selections.MatchesSelect | godoc/format.go:261-274 | sorted matches form a selection of exactly the nonempty ones |
| Spots.CodesInOrder | godoc/spot.go:23-34 | the codes number the eight kinds in the order in which they are declared, so kinds with one code are the same |
| Spots.MadeSpot | godoc/spot.go:63-83 | the kind that was packed, lori and isIndex come back from the packed word; a lori outside 28 bits is read as 0 |
| Spots.SameFieldsSameSpot | godoc/spot.go:81-83 | the three fields determine the word |
| Spots.SentinelIsIndexedUse | godoc/spot.go:63-79 | a packed word is the marker of newKindRun exactly for the largest indexed use |
| Runs.Sort | godoc/index.go:91-97 | sorted by any strict weak order, and a permutation |
| Runs.Reduce | godoc/index.go:101-125 | the maximal runs of equal entries in order, which together are a permutation of the list |
| IndexOrders.StringLessTransitive | godoc/index.go:188-223 | string order is transitive; with irreflexivity and totality a strict order |
| IndexOrders.StringLessTotal | godoc/index.go:188-223 | two different strings are ordered |
| IndexOrders.StringLessMeans | godoc/index.go:188-223 | one string comes before another exactly when they agree up to a place where it ends or has the smaller character |
| IndexOrders.KeyOrder | godoc/index.go:188-223 | packages go by name first, then by path; spots by directory first, then by file name |
| IndexOrders.KindOrder | godoc/index.go:145 | kinds go in the order in which they are declared |
| IndexOrders.PakOrder | godoc/index.go:188-190 | packages are strictly ordered by name, then path; packages not told apart are equal |
| IndexOrders.SpotOrder | godoc/index.go:216-223 | spots not told apart have the same path and file name |
| Indexing.Compact | godoc/index.go:164-172 | the loop in place computes the list without repeated neighbours |
| Indexing.DistinctAfter | godoc/index.go:155-172 | on a sorted list of one kind that drops exactly the repetitions |
| Indexing.NewKindRun | godoc/index.go:148-176 | strictly increasing lines; exactly the entries that went in if and only if some entry is not the marker |
| Indexing.NewFileRun | godoc/index.go:226-242 | the infos of the file, each once, in groups of increasing kind |
| Indexing.NewPakRun | godoc/index.go:264-273 | the same file runs, strictly sorted by file name |
| Indexing.ReduceSpots | godoc/index.go:284-297 | everything strictly sorted at all four levels; exactly the (package, file, kind, spot) occurrences that went in if and only if each path belongs to one package |
| Indexing.ListedOnce | godoc/index.go:284-297 | no occurrence stands at two places of a hit list |
| Indexing.Indexer.VisitIdent | godoc/index.go:489-520 | decls get indexed spots that are no uses, others get spots by line; each goes to the lists of its word, with the current file, and the lists hold exactly what the visits up to now were given: kind, place, line or snippet |
| Indexing.Indexer.IndexGoFile | godoc/index.go:829-838 | a file is entered once, with the package of its own clause |
| Indexing.FoundReady | godoc/index.go:489-520 | lists filled that way meet what the reduction relies on, and each path has one package |
| Indexing.Indexer.NewIndex | godoc/index.go:1041-1052 | so the index of every word is sorted, and has a spot of some kind, line or snippet in a file exactly when an identifier of that kind was visited there |
| Indexing.KindsListed | godoc/index.go:489-520 | a word is listed under a kind in a file exactly when an identifier of that kind was visited there, with a snippet or without |
| Txtar.TrimmedExactly | txtar/archive.go:117-128 | trimming takes all space off both ends and nothing else |
| Txtar.NameExactly | txtar/archive.go:117-128 | a line has a name exactly when it is the two marks with something other than space between |
| Txtar.SeekFirst | txtar/archive.go:100-112 | no line before the place that is found has a name |
| Txtar.FixNLLeast | txtar/archive.go:132-140 | the shortest text that begins with the given one and is empty or ends in a newline |
| Txtar.IsMarker | txtar/archive.go:117-128 | the name of a marker line and what follows; it fails exactly on the one bad line |
| Txtar.FindFileMarker | txtar/archive.go:100-112 | the split at the first marker line, although the search only looks for newline and marker |
| Txtar.Parse | txtar/archive.go:78-88 | fails exactly on data with a bad line before the place where it stops looking; otherwise a well-formed archive |
| Txtar.Format | txtar/archive.go:57-65 | comment, then marker, name and data of each file, newlines completed |
| Txtar.FormatThenParse | txtar/archive.go:57-88 | parsing a formatted well-formed archive gives it back |
| Txtar.ParseIsWellFormed | txtar/archive.go:78-140 | what is parsed is well-formed, so formatting and parsing again changes nothing |
| Txtar.FormattedNoBad | txtar/archive.go:57-65 | a well-formed archive without bad lines is formatted without bad lines |
| Txtar.RoundTrips | txtar/archive.go:57-140 | both round trips, through the procedures |
| Tabs.Tconv.WriteIndent | godoc/tab.go:26-39 | writes exactly the blanks for the indentation, 32 at a time |
| Tabs.Tconv.Write | godoc/tab.go:41-82 | one call moves state and output by exactly its bytes |
| Tabs.RunConcat | godoc/tab.go:41-82 | the input may be cut anywhere |
| Tabs.Tconv.WriteAll | godoc/tab.go:41-82 | any number of calls writes what one call would |
| Tabs.RunText | godoc/tab.go:41-82 | the output is the line-by-line reference: tabs and spaces as blanks, none on blank lines |
| CoverRuns.ListAlike | cmd/cover/cover.go:162-231 | counters cannot be seen: a list runs as it does without them, event for event |
| CoverRuns.StmtAlike | cmd/cover/cover.go:162-231 | the same for statements of every kind, an else-if with a block around it included |
| CoverRuns.ListCounts | cmd/cover/cover.go:462-498 | where each counter stands before its statement, no run changes the difference of the two counts |
| CoverRuns.StmtCounts | cmd/cover/cover.go:162-231 | the same for statements |
| Counters.AddedStrip | cmd/cover/cover.go:462-498 | addCounters only adds counters |
| Counters.VisitStmtStrip | cmd/cover/cover.go:162-231 | so does Visit |
| CoverBlocks.AddedBlocks | cmd/cover/cover.go:462-498 | the blocks of one list do not overlap, and leave room for what is inside its statements |
| CoverBlocks.VisitListBlocks | cmd/cover/cover.go:162-231 | the blocks inside the statements of a list stay inside them |
| CoverBlocks.VisitStmtBlocks | cmd/cover/cover.go:516-582 | the blocks inside a statement lie behind its boundary |
| CoverBlocks.FuncsBlocks | cmd/cover/cover.go:162-231 | the blocks of a whole file do not overlap, and none is empty |
| CoverCounts.AddedTop | cmd/cover/cover.go:462-498 | each counter of addCounters stands before the first statement of its block and nowhere else |
| CoverCounts.StmtPaired | cmd/cover/cover.go:162-231 | that holds throughout a visited statement |
| CoverCounts.FuncsPaired | cmd/cover/cover.go:162-231 | and throughout a visited file |
| Covering.BoundaryIsReach | cmd/cover/cover.go:516-621 | a statement is covered to its end, or to the brace that opens its body, and ends the basic block when the next statement need not follow it |
| Covering.CountedCovers | cmd/cover/cover.go:462-498 | the blocks of one list are its maximal basic blocks and cover exactly their statements |
| Covering.FuncsCover | cmd/cover/cover.go:162-231 | and so for all lists of a file together |
| CoverFile.SourceFile.NewCounter | cmd/cover/cover.go:437-448 | the counter has the number of its block, which is appended |
| CoverFile.SourceFile.AddCounters | cmd/cover/cover.go:462-498 | the loop with its scan computes the list with counters and the blocks that the recursive form gives; they cover the list: each statement that is not bare exactly once, to its end or its opening brace, an empty list with a block of its own |
| CoverFile.SourceFile.VisitStmt | cmd/cover/cover.go:162-231 | the visit rewrites the statement and appends its blocks in the order that numbers the counters |
| CoverFile.SourceFile.VisitElse | cmd/cover/cover.go:180-209 | an else starts at the end of the body; an if after else gets a block |
| CoverFile.SourceFile.CountClauses | cmd/cover/cover.go:164-180 | all clauses get their counters before anything inside them |
| CoverFile.SourceFile.VisitFuncs | cmd/cover/cover.go:162-231 | a file, function by function; the blocks cover all its lists |
| CoverFile.MeaningPreserved | cmd/cover/cover.go:162-231 | for every program, input and length of run: same events, same outcome, once counter updates are erased |
| CoverFile.CountersCount | cmd/cover/cover.go:437-498 | each counter ends equal to the number of times its block's first statement began in the original run |
| CoverFile.StatementsCovered | cmd/cover/cover.go:450-498 | each statement of each list is in exactly one block, or in none exactly when it is bare; each list, empty or not, has a block that starts where it does |
| CoverFile.BareUncovered | cmd/cover/cover.go:486-488 | a file with a bare statement, which is in no block |
| CoverFile.BlocksAreBasic | cmd/cover/cover.go:450-498 | each block is that of as many statements of a list as it says, only the last of which leads elsewhere, and covers these and no others of the file |
| CoverFile.BlocksDisjoint | cmd/cover/cover.go:662-678 | the self-check for overlapping blocks never fires |

## Left out

- Propagation.LooksExact: one direction only, from the condition to completeness; the order in which the loop takes up waiting states is left open, so runs include every order.
- WorkingSets.Workspace.Closure: the lookaheads of working sets and states are sets of tokens as values; the procedures on word arrays are proved to be set operations in `Lkset`, and `Firsts` works with the words they compute, as values in the cells of pfirst.
- Parsing.Parser.Parse: error recovery is not modelled, an error ends the parse; the number of steps is a parameter, since the source's loop has no bound of its own. How many suffice is said in `Deciding.ParserDecides`.
- Parsing.Parser.Step: the stack is the list of its states, and semantic values and actions are left out.
- Completeness.AcceptsSentence: for tables without conflicts; what precedences make of a conflicting grammar is described row by row in `Pipeline.TablesShift`, not as a language.
- Pipeline.GenerateAndParse: that the parser comes to an end is claimed of grammars without conflicts, with no number of steps in advance; with conflicts it may be still running when its steps are used up.
- Deciding.ParserDecides: rejection is the first error that is reported; what error recovery makes of it is left out.
- Machines.Machine.Run: the number of turns is a parameter, for the same reason.
- Pipeline.Generate: errors and full tables are reported by a result instead of ending the process; token and nonterminal counts are below 1000, the value that marks empty entries; precedence levels are parameters. A grammar without the room of `RoomFor` may still be handled: how well first fit packs its rows is said step by step, not in advance.
- Optimizing.Optimizer.Stin: reaching the cell past the end is an outcome of its own, where the source reads outside the array.
- CoverFile.MeaningPreserved: programs have no goto and no function literals, comments are ignored, and a counter update is one atomic increment without wrap-around.
- CoverFile.CountersCount: goroutines, deferred calls and recovered panics are not part of the runs.
- CoverFile.StatementsCovered: of a source in which statements of a list are separated by a semicolon or a newline, as the language asks for.
- CoverFile.BlocksDisjoint: positions are those of the syntax tree; the line and column tables made from them are left out.
- Races.RFGPlusGraph.DetectRace: points-to sets, locksets and the source text behind a position are parameters; the combined points-to index, which a constant switches off, and the printing are left out.
- Races.RFGPlusGraph.AddRace: keys are pairs of positions instead of strings made from them.
- HappensBefore.Queries.DFSCanReach: the graph does not change between queries; the cache is keyed by pairs of numbers instead of strings made from them.
- Selections.FormatSelections: the bitset is a set of selection numbers, the text is shorter than the value that marks an exhausted selection, and the writers for links and segments become events of the output.
- Indexing.ReduceSpots: strings are compared character by character, files and packages are values instead of pointers, and the run objects are made by the caller of `Reduce` instead of a function passed to it.
- Indexing.Indexer.VisitIdent: line, snippet number and the presence of a declaration are parameters, and files are walked one after the other.
- Spots.MakeSpotInfo: or-ing fields into positions that hold zero is written as addition.
- Txtar.Parse: data is a sequence of characters instead of bytes, so names that are not valid UTF-8 are not in the model.
- Tabs.Tconv.Write: the underlying writer does not fail.
- goyacc's lexer, grammar reader, action copying, code emission, token translation tables, y.output, statistics and warnings such as rules that are never reduced.
- godoc's suffix arrays, regular expressions, encoding, concurrent file walk and HTML tags; digraph's input parser, commands and the sorting of printed lines.
- GoGuard's explorer of blocking bugs and everything else in `concurrency` that depends on the pointer analysis.
- All other commands and servers of the repository: thin layers over libraries, user interface or network.
