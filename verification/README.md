# Neoast: the table generator, the LR driver and the scanner

Neoast compiles a grammar into a packed action/goto table, drives that table over a stream of tokens
while it computes values, and reads the tokens with a DFA that runs over a growing buffer. This project
models those three parts and proves what they are for: the driver on a generated table accepts exactly
the language of the grammar, the value it returns is the fold of the parse tree, and the scanner returns
the longest match at every position of the stream however the input arrives. Where one of these fails, a
run on a small grammar shows it, and a theorem says exactly when it holds.

`dafny verify dfyconfig.toml` checks all files.

## What is modelled

**Grammars and meaning** (`Grammar.dfy`, `Graph.dfy`). A symbol is a table column: its value minus the 256
values reserved for ASCII. Rule 0 is the augment rule. Parse trees, derivations, rightmost derivations and
the language are defined independently of the parser.

**Table generator** (`Visit.dfy`, `First.dfy`, `FirstProofs.dfy`, `Closure.dfy`, `Automaton.dfy`, `Exploration.dfy`,
`Universe.dfy`, `Canonical.dfy`, `Follow.dfy`, `Textbook.dfy`, `Merging.dfy`, `Filling.dfy`, `Rows.dfy`,
`Collection.dfy`, `Table.dfy`). First sets by the recursive visit, closure by the worklist and the fixed-point loop, the
recursive construction of the state graph, merging by LR(0) core with its renumbering in place, and the
rows of the table with their conflict counters. Sets are walked in an arbitrary order wherever the program
walks a hash set, so every result holds for every iteration order.

**Driver** (`Machine.dfy`, `Parsing.dfy`, `Necessity.dfy`, `Prefix.dfy`, `Termination.dfy`, `Values.dfy`, `Memory.dfy`,
`Handing.dfy`, `Slots.dfy`, `Conservation.dfy`, `Driver.dfy`, `Pipeline.dfy`). An abstract machine over the packed table carries
the parse forest. `Memory.dfy` says what the interleaved stack of slots and states and the token and value tables
hold after every turn, empty rules included; the class `Driver` is the loop of `parser_parse_lr` with its
destructors, and its memory is exactly that. `Pipeline.dfy` joins generator and driver.

**Scanner** (`Munch.dfy`, `Scanner.dfy`). The class `Matcher` has the fields of the matcher record; the
specification is the same DFA over the whole unbuffered stream.

**Lookahead sets** (`BitVector.dfy`). The vector of 32-bit words is proved to be a finite set: its operations
are the set operations, merging reports a change exactly when the set grows, and word equality is set
equality. The generator is proved over sets.

**Grammars that show a departure or a match** (`Examples.dfy`, `HeadExample.dfy`, `Rejection.dfy`,
`AcceptExample.dfy`, `EmptyExample.dfy`, `NestExample.dfy`, `PairExample.dfy`, with `Cover.dfy` to show that a
grammar has no conflict). Each speaks of every table the generator can yield for its grammar; `PairExample.dfy`
shows that the table expected by the repository's own test is such a table.

A grammar is called *tame* here when it has no empty rule, no left-corner cycle other than self-loops, and
no rule from a symbol to itself.

A grammar has *plain heads* when only rules of one symbol begin with a symbol that derives the empty string, and there
is no left-corner cycle other than self-loops; it may have empty rules. Its start symbol is *free* when the start state
has no item that begins with it but the augment item, or when there is no empty rule and no other rule over the start
symbol alone in that state. It is *productive* when some tree stands over every nonterminal. Tame grammars have plain
heads and a free start symbol.

A generated table is called *clean* when the generator counts no conflict. A table *serves* when it holds every
move asked for by some lookaheads that flow over some first sets satisfying the grammar's rules; they need not be
those the program computed.

## Where the code departs from what one might expect, and exactly when it does not

- Lookaheads found for a symbol are merged into every item with that left side, kernel items included
  (src/parsergen/derivation.cc:90-96, 136-142), so the "CLR(1)" lookaheads contain the canonical ones, along every
  path of the graph, and can be larger (`NestExample.ClosureIsLarger`, a state of the grammar's own graph). A closure
  is the textbook's if and only if the textbook's has nothing to pass to its kernel items
  (`Textbooks.EqualsTextbook`); that is so when no kernel item's left side stands after a dot, which the LR(0) items
  show. The graph is the canonical LR(1) collection if and only if that holds of every state
  (`Textbooks.GraphEqualsTextbook`).
- In the fixed-point loop `dirty = dirty || merge(...)` skips all further merges of a pass once one has changed
  something (src/parsergen/derivation.cc:140). The model does the same; the result is still the least solution.
- The first-of recursion looks at the first symbol of a production only, and marks a symbol as initialized even
  when a cycle cut its visit short (src/parsergen/canonical_collection.cc:69-73, 84-128). The sets are sound for
  every grammar, and each was left with exactly what the heads of the symbol's rules had when its visit ended
  (`FirstProofs.VisitTells`). They are exact if and only if they satisfy the equation of every rule, which holds in every
  visiting order for grammars with plain heads. They can fail behind a nullable head in every order
  (`HeadExample.NullableHeadMissesFirst`), and on the README's own example (README.md:303-312) when expressions are
  visited first (`Examples.ReadmeMissesFirst`). There that does no harm: every clean table decides the language
  (`Examples.ReadmeIsDecided`). In `Rejection.dfy` a similar grammar has no conflict to report, in either parser
  type, and its table rejects a sentence.
- So completeness has a condition. For productive grammars, a generated table serves if and only if no sentence has two trees and the driver accepts exactly the language
  (`Pipelines.ServesIffDecides`), and if and only if the driver rebuilds every parse tree
  (`Necessity.ServesExactly`). A clean table under null precedence serves if the computed first sets cover, behind
  the nonterminals of each rule, some that satisfy the rules, and no state accepts and reduces on one token
  (`Pipelines.CleanServes`), as it always does with plain heads and a free start symbol.
- A grammar with empty rules or unit cycles can make the driver loop for ever (`AcceptExample.CleanButIncomplete`). On a
  table that serves a productive grammar every run ends (`Prefixes.ServedEnds`).
- An ACCEPT already in a cell is overwritten by a REDUCE without a conflict being counted, while the other order
  counts one (src/parsergen/derivation.cc:242-276, `AcceptExample.FillInOrder`). A clean table under null precedence
  holds every move asked for if and only if no state accepts and reduces on the same token (`Rows.PickedComplete`).
  For `S -> S | a` every graph has such a state, a clean table exists, and none accepts `a`
  (`AcceptExample.CleanButIncomplete`). Grammars with a free start symbol have no such state, and then reduce/reduce
  conflicts are counted exactly (`Rows.ReduceReduceCounted`).
- A reduction by an empty rule stores its result in the slot of the previous reduction (src/lr.c:52, 275-276). The
  slots of a run stay 0..d-1 with the lookahead in d, each with its value, if and only if the run has reduced no
  empty rule (`Slots.PackedExactly`). Otherwise a token's value can be lost (`EmptyExample.EmptyRuleLosesToken`) and
  the driver's assertion at src/lr.c:282 can fail (`EmptyExample.AssertionFails`); it holds in a run if and only if
  no turn moves the lookahead away from the slot of the last result (`Slots.AssertedExactly`). Statements about
  states and reductions hold for all rules, and so does the description of the memory; that values are the folds of
  the trees and used once is for runs that reduce no empty rule.

## Model

| member | source | states |
|---|---|---|
| BitVectors.WordsEqual | src/parsergen/bit_vector.h:133-136 | words that agree on each of the 32 bits are the same word |
| BitVectors.MaskBit | src/parsergen/bit_vector.h:102-112 | the mask 1 << i has bit i and no other |
| BitVectors.BitClear | src/parsergen/bit_vector.h:114-118 | masking out one bit leaves every other bit of the word |
| BitVectors.JoinMembers | src/parsergen/bit_vector.h:120-131 | or-ing words pairwise is the union of the sets |
| BitVectors.MembersEqual | src/parsergen/bit_vector.h:133-136 | vectors of one length that stand for the same set are equal |
| BitVectors.NoMembers | src/parsergen/bit_vector.h:80-94 | the set is empty exactly when all words are zero |
| BitVectors.BitVector.constructor | src/parsergen/bit_vector.h:59-64 | a new vector of the given length stands for the empty set |
| BitVectors.BitVector.Grow | src/parsergen/bit_vector.h:69-76 | growing adds room and no members |
| BitVectors.BitVector.Get | src/parsergen/bit_vector.h:102-106 | indexing is membership |
| BitVectors.BitVector.Select | src/parsergen/bit_vector.h:108-112 | selecting adds exactly one member |
| BitVectors.BitVector.Clear | src/parsergen/bit_vector.h:114-118 | clearing a bit removes exactly one member |
| BitVectors.BitVector.ClearAll | src/parsergen/bit_vector.h:96-100 | clearing removes all members |
| BitVectors.BitVector.Merge | src/parsergen/bit_vector.h:120-131 | merging is union, and the result tells whether the set grew |
| BitVectors.BitVector.Equals | src/parsergen/bit_vector.h:133-136 | comparing words is comparing sets, for equally many words |
| BitVectors.BitVector.HasAny | src/parsergen/bit_vector.h:80-86 | some word is non-zero exactly when the set is not empty |
| BitVectors.BitVector.HasNone | src/parsergen/bit_vector.h:88-94 | no word is non-zero exactly when the set is empty |
| BitVectors.BitVector.Next | src/parsergen/bit_vector.h:43-53 | stepping the iterator stops at the next member, or at the end |
| BitVectors.BitVector.Elements | src/parsergen/bit_vector.h:37-67 | iterating meets every member below the length once, in ascending order |
| Firsts.FirstTable.constructor | src/parsergen/canonical_collection.cc:25-61 | the sets are those left by visiting every left side in some order; each left side was left with exactly what the heads of its rules had when it was finished |
| Firsts.FirstTable.FirstOf | src/parsergen/canonical_collection.cc:63-129 | the recursion in place terminates, restores the symbols being visited and leaves their sets alone; it ends with exactly the tokens and the flag that the heads of the symbol's rules have then, cut short by a cycle or not |
| FirstProofs.VisitTells | src/parsergen/canonical_collection.cc:84-128 | for every grammar and in the middle of any recursion: a token is in a finished set if and only if the head of some rule is it or has it, and the flag is set if and only if a rule is empty or has one flagged symbol |
| FirstProofs.VisitAllTells | src/parsergen/canonical_collection.cc:25-61 | so it is for every left side, in every order, when that side was finished, and it stays |
| FirstProofs.ComputedExplained | src/parsergen/canonical_collection.cc:25-61 | the same of the sets of any collection |
| FirstProofs.FirstSound | src/parsergen/canonical_collection.cc:63-135 | in any order, for every grammar: marked tokens begin derivations, flagged symbols derive the empty string |
| FirstProofs.TameIsClosed | src/parsergen/canonical_collection.cc:69-128 | for tame grammars the sets satisfy every rule's equation, in any order |
| FirstProofs.PlainIsClosed | src/parsergen/canonical_collection.cc:69-128 | so they do with plain heads, empty rules included, in any order |
| FirstProofs.DerivationFirst | src/parsergen/canonical_collection.h:124-136 | sets that satisfy every rule's equation bound what can come first in anything derived |
| FirstProofs.ExactIffClosed | src/parsergen/canonical_collection.cc:63-129 | sound sets are FIRST exactly if and only if they satisfy every rule's equation |
| FirstProofs.TameFirstExact | src/parsergen/canonical_collection.cc:49-129 | for tame grammars the sets are FIRST exactly, in any visiting order |
| FirstProofs.PlainFirstExact | src/parsergen/canonical_collection.cc:49-129 | and with plain heads, empty rules included |
| FirstProofs.ComputedFirst | src/parsergen/canonical_collection.cc:25-61 | soundness, and exactness for plain heads, of the sets of any collection |
| Closures.MergeFirstOf | src/parsergen/canonical_collection.h:124-136 | adds a token itself or a nonterminal's set, and tells whether the symbol may be empty |
| Closures.MergeNextLookaheads | src/parsergen/derivation.cc:24-40 | collects the first tokens of what follows the symbol after the dot, ending with the item's lookaheads |
| Closures.NextConcat | src/parsergen/derivation.cc:24-40 | the first tokens of a concatenation are those of its first part, followed by those of the second |
| Closures.ExpandItem | src/parsergen/derivation.cc:76-112 | one item keeps the partial closure below every closed set, and pending items stay known |
| Closures.ExpandItems | src/parsergen/derivation.cc:62-119 | the worklists end with every symbol after a dot expanded |
| Closures.PropagateItem | src/parsergen/derivation.cc:128-142 | one item's lookaheads are passed on unless the pass has changed something |
| Closures.PropagatePass | src/parsergen/derivation.cc:123-144 | a pass either adds a lookahead or finds the set closed |
| Closures.ApplyClosure | src/parsergen/derivation.cc:42-147 | the loops terminate with the least solution of the closure equations above the kernel |
| Closures.ClosureUnique | src/parsergen/derivation.cc:42-147 | the closure depends on the kernel alone, so no iteration order can be seen in it |
| Automata.ClosureCore | src/parsergen/derivation.cc:42-147 | the items of a closure are the LR(0) closure of its kernel's items |
| Automata.Handle | src/parsergen/derivation.cc:161-183 | every path into a state spells, before the dot of each of its items, the end of the path |
| Automata.AcceptPath | src/parsergen/derivation.cc:224-229 | only the one-edge path over the start symbol ends in the finished augment item |
| Automata.PathItemsValid | src/parsergen/derivation.cc:42-193 | every item of a state is valid for every path into the state |
| Automata.ViablePrefix | src/parsergen/derivation.cc:149-193 | every path spells the beginning of a sentential form |
| Universes.InUniverse | src/parsergen/derivation.cc:149-193 | the item sets over a grammar are finitely many, so the construction ends |
| Explorations.AdvancedItems | src/parsergen/derivation.cc:160-175 | grouping the items by the symbol after the dot gives, for each symbol, exactly the advanced items |
| Explorations.AllExplored | src/parsergen/derivation.cc:149-193 | when the start state's visit returns, the graph is the canonical collection |
| Collections.CanonicalCollection.constructor | src/parsergen/canonical_collection.cc:25-61 | an empty collection with computed first sets |
| Collections.CanonicalCollection.AddState | src/parsergen/canonical_collection.cc:137-148 | returns the state equal to the closure of the kernel, with a new contiguous id only if there was none |
| Collections.CanonicalCollection.Connect | src/parsergen/derivation.cc:177-183 | fills the transitions of a state and no other |
| Collections.CanonicalCollection.ResolveState | src/parsergen/derivation.cc:149-193 | the recursion terminates with every state reachable from here explored |
| Collections.CanonicalCollection.ResolveGraph | src/parsergen/canonical_collection.cc:158-167 | states are distinct closures, reachable, with exactly the transitions of the symbols after their dots, ids 0..n-1 |
| Collections.LalrEqual | src/parsergen/derivation.cc:312-336 | the comparison is equality of LR(0) cores |
| Collections.CanonicalCollection.SetId | src/parsergen/derivation.h:201-208 | renumbers a state and everything merged under it, and nothing else |
| Collections.CanonicalCollection.LalrMerge | src/parsergen/derivation.cc:286-310 | the kept state's lookaheads become the unions, and the other state is recorded under it |
| Collections.CanonicalCollection.Absorb | src/parsergen/canonical_collection.cc:205-221 | one merge keeps ids contiguous and shared within groups, and moves the last id into the hole |
| Collections.CanonicalCollection.MergePair | src/parsergen/canonical_collection.cc:185-222 | merging the groups of two states of equal core, keeping the lower id, keeps the bookkeeping |
| Collections.CanonicalCollection.MergeStates | src/parsergen/canonical_collection.cc:176-223 | in any order, ends with the quotient by LR(0) core: ids in bijection with cores, lookaheads the unions, start state 0 |
| Mergings.IdsMerge | src/parsergen/canonical_collection.cc:208-221 | the ids after one merge again name exactly the remaining groups |
| Mergings.MergingDone | src/parsergen/canonical_collection.cc:176-223 | when all states have been seen, the graph in use is the quotient |
| Collections.CanonicalCollection.Resolve | src/parsergen/canonical_collection.cc:158-224 | CLR(1) gives the canonical graph, LALR(1) its quotient by core |
| Canonical.CanonicalCore | src/parsergen/derivation.cc:149-193 | forgetting lookaheads, the graph is an LR(0) automaton |
| Canonical.CanonicalLookaheads | src/parsergen/derivation.cc:42-193 | lookaheads are closed under expansion and passed along transitions |
| Canonical.CollectedReached | src/parsergen/derivation.cc:149-193 | every state of either graph is at the end of some path from the start state |
| Canonical.QuotientCore | src/parsergen/canonical_collection.cc:176-223 | merging by core keeps the LR(0) automaton |
| Canonical.QuotientLookaheads | src/parsergen/canonical_collection.cc:176-223 | merging by core keeps the lookaheads closed |
| Canonical.MergeAddsNoShiftReduce | src/parsergen/canonical_collection.cc:176-243 | a shift/reduce conflict of a merged state is one of some state merged into it |
| Canonical.Simulation | src/parsergen/canonical_collection.cc:176-223 | step by step, the merged table makes the moves of the unmerged one, with renamed states |
| Pipelines.MergingKeepsShiftReduceFree | src/parsergen/canonical_collection.cc:176-243 | no counted shift/reduce conflict in the CLR(1) table, none in the LALR(1) table |
| Pipelines.LalrAccepts | src/parsergen/canonical_collection.cc:176-223 | inputs accepted by the CLR(1) table are accepted by a conflict-free LALR(1) table with the same tree and number of steps |
| Textbooks.ContainsTextbook | src/parsergen/derivation.cc:42-147 | the closure contains the textbook's over the same first sets |
| Textbooks.EqualsTextbook | src/parsergen/derivation.cc:90-96 | the two agree if and only if the textbook's closure has nothing to pass to its kernel items |
| Textbooks.ApartEqualsTextbook | src/parsergen/derivation.cc:136-142 | they agree when no kernel item's left side stands after a dot of the closure |
| Textbooks.PathContainsTextbook | src/parsergen/derivation.cc:149-193 | along every path of the graph the canonical LR(1) item set is below the state reached |
| Textbooks.TextbookExists | src/parsergen/derivation.cc:42-147 | a kernel below a closed set has a least textbook closure |
| Textbooks.GraphEqualsTextbook | src/parsergen/derivation.cc:149-193 | the states met along every path are the canonical LR(1) item sets if and only if no state's textbook closure has anything to pass to its kernel items |
| Follows.CanonicalFollow | src/parsergen/derivation.cc:24-193 | every lookahead of every state is in FOLLOW of its item's left side |
| Follows.QuotientFollow | src/parsergen/canonical_collection.cc:176-223 | and still after merging |
| Follows.TameNoAcceptReduce | src/parsergen/derivation.cc:224-276 | no state of a tame grammar accepts and reduces on the same token |
| Follows.AloneNoAcceptReduce | src/parsergen/derivation.cc:224-276 | nor does one of a grammar whose start state has no item that begins with the start symbol but the augment item, empty rules included |
| Tables.DecodeEncode | include/neoast.h:68-94 | the words are bit 29, bit 30 or bit 31 with the payload below; packing loses nothing, and the mask tests tell shift, reduce and accept apart |
| Tables.OffsetInjective | src/lr.c:26-33 | rows never overlap |
| Fillings.FillShifts | src/parsergen/derivation.cc:200-208 | a row is cleared and holds exactly the transitions |
| Fillings.PlaceOne | src/parsergen/derivation.cc:239-276 | one reduction is placed and counted as the entry for its token says: where it meets a shift, RIGHT keeps the shift, LEFT takes the reduction, and without an entry it is taken and counted |
| Fillings.FillTable | src/parsergen/derivation.cc:195-279 | in any item order: cells hold moves asked for, clean cells are fixed by items and precedence, shift/reduce conflicts are counted exactly; reduce/reduce ones only where a rule contests another final item, and always where two rules other than the augment rule do |
| Collections.CanonicalCollection.Generate | src/parsergen/canonical_collection.cc:226-243 | the whole table is sound; the result is 0 exactly if both counters are, and then every cell with a shift and a rule obeys the entry for its token; a count is a conflict that no entry decides, and without a state that accepts and reduces on one token the result is not 0 exactly if there is one |
| Rows.RowsSound | src/parsergen/canonical_collection.cc:226-243 | filled rows make a table in which every cell holds a move its state asks for, if there is one |
| Rows.PickedObeys | src/parsergen/derivation.cc:253-273 | in a clean table, where a state can shift and reduce a rule on a token, the table has an entry for it: LEFT left the reduction in the cell and RIGHT the shift |
| Rows.CountersTell | src/parsergen/derivation.cc:239-276 | for every precedence table: a count means a token with two moves and no entry that decides; each undecided shift/reduce and each pair of rules is counted |
| Rows.PickedComplete | src/parsergen/derivation.cc:210-278 | under null precedence a clean table holds every move asked for if and only if no state accepts and reduces on one token |
| Rows.ClashIsShiftReduce | src/parsergen/derivation.cc:253-273 | under null precedence the counted shift/reduce conflicts are those of the state graph |
| Rows.ContestIsReduceReduce | src/parsergen/derivation.cc:244-252 | a counted reduce/reduce conflict is between two rules of one state |
| Rows.ReduceReduceCounted | src/parsergen/derivation.cc:239-252 | under null precedence, and without a state that accepts and reduces on one token, reduce/reduce conflicts are counted exactly when the state graph has one |
| Rows.CleanHasNone | src/parsergen/derivation.cc:239-276 | a clean table comes from a graph without conflicts, but for acceptance against a reduction |
| Rows.CleanAgrees | src/parsergen/derivation.cc:210-278 | two clean tables of one graph agree in every cell, for any precedence: the order of the items cannot be seen |
| Machines.ReduceHandle | src/lr.c:46-105 | at every reduction the rule's right side is on top of the stack and the goto cell read holds a shift |
| Machines.StepKeeps | src/lr.c:224-297 | every turn of the loop keeps the stack a path of the graph and the frontier the input read |
| Machines.RunSafe | src/lr.c:204-298 | no run gets stuck: every cell read is a move, every goto a transition, every reduction finds its right-hand side, and the forest's frontier is the input read |
| Machines.RunViable | src/lr.c:254-264 | in every configuration the stack spells the beginning of a sentential form |
| Grammars.TreeInLanguage | src/lr.c:204-298 | the reductions of a tree, read backwards, are a rightmost derivation of its frontier |
| Grammars.TreeOfLanguage | src/lr.c:204-298 | every sentence is the frontier of a tree |
| Parsing.Soundness | src/lr.c:204-298 | an accepted input is a sentence, and the tree built has it as frontier |
| Parsing.Completeness | src/lr.c:204-298 | on a table that serves, the frontier of every tree is accepted with that tree, in one turn for each node and one more |
| Parsing.Decides | src/lr.c:204-298 | on a table that serves, acceptance is membership in the language, both ways |
| Parsing.Unambiguous | src/parsergen/canonical_collection.cc:226-243 | a grammar with a table that serves has one tree for each sentence |
| Necessity.TreeFirstClosed | src/parsergen/canonical_collection.h:124-136 | the first tokens and emptiness read off the trees satisfy every rule's equation |
| Necessity.Sentence | src/parsergen/derivation.cc:24-193 | an item that can stand behind a prefix with a lookahead does so in the tree of some sentence, whatever completes its rule |
| Necessity.RunVisits | src/lr.c:224-297 | a run that ends with a tree has been at every forest on the way to it |
| Necessity.ServesExactly | src/lr.c:204-298 | the driver rebuilds every parse tree if and only if the table serves |
| Prefixes.ShiftedBegins | src/lr.c:254-264 | in every configuration of every run of a productive grammar, whatever the conflicts, the tokens shifted begin a sentence |
| Prefixes.CorrectPrefix | src/lr.c:238-253 | at a syntax error of a table that serves, the tokens shifted begin a sentence, and with the lookahead they begin none |
| Prefixes.ServedEnds | src/lr.c:224-297 | on a table that serves a productive grammar every run ends, empty rules and unit rules included |
| Termination.StepLowers | src/lr.c:224-297 | every turn lowers a measure of remaining tokens, stack depth and unit-rule rank |
| Termination.RunEnds | src/lr.c:224-297 | without empty rules and unit cycles every run ends within a linear number of turns, whatever the conflicts |
| Termination.TameTerminates | src/lr.c:224-297 | tame grammars have neither |
| Pipelines.GeneratedSound | src/lr.c:204-298 | soundness for every grammar, precedence and conflict |
| Pipelines.GeneratedDecides | src/lr.c:204-298 | whenever a generated table serves, whatever its first sets, precedences and conflicts, the driver accepts exactly the language |
| Pipelines.ServesIffDecides | src/lr.c:204-298 | a generated table serves if and only if no sentence has two trees and the driver accepts exactly the language |
| Pipelines.CleanServes | src/parsergen/canonical_collection.cc:226-243 | a clean table under null precedence serves if its first sets cover, behind nonterminals, some that satisfy the rules, and no state accepts and reduces on one token |
| Pipelines.PlainServes | src/parsergen/canonical_collection.cc:226-243 | so does a clean table of every grammar with plain heads and a free start symbol, in any visiting order |
| Pipelines.PlainDecides | src/lr.c:204-298 | for such grammars, empty rules included, acceptance is membership, and if they are productive every run ends |
| Pipelines.ServedDecides | src/lr.c:204-298 | on a generated table that serves a productive grammar, every run ends by accepting exactly the sentences |
| Pipelines.GeneratedPrefix | src/lr.c:238-253 | and at a syntax error the tokens shifted begin a sentence, and with the lookahead they begin none |
| Pipelines.CleanRunsAgree | src/parsergen/canonical_collection.cc:226-243 | runs on two clean tables of one graph are the same, turn by turn |
| Pipelines.TameDecides | src/lr.c:204-298 | for tame grammars with a clean table the driver answers within a linear number of turns, and accepts exactly the language |
| Pipelines.GenerateTable | src/parsergen/canonical_collection.cc:158-243 | refuses exactly beyond 2^29 states or rules; every other table is sound, obeys the precedence where error is 0, and error is 0 exactly if no state has two moves for one token that no entry decides, where no state accepts and reduces on one token |
| Pipelines.GenerateAndParse | src/lr.c:204-298 | generator and driver together: too large and conflicts are reported exactly as GenerateTable finds them, and otherwise the report is that of the driver's run on the generated table; acceptance is of a sentence, and without empty rules returns the value of its tree; under null precedence, with plain heads and a free start symbol every answer is membership, and for tame grammars there is one in bounded time |
| Drivers.Driver.PutSlot | src/lr.c:263-263 | writes one slot of both tables, which grow as needed |
| Drivers.Driver.PopArguments | src/lr.c:52-63 | the popped values in the order of the rule's right side, and the slot for the result |
| Drivers.Driver.Reduce | src/lr.c:35-105 | the memory left by one reduction, and the call it makes, empty rules included |
| Drivers.Driver.RunDestructor | src/lr.c:158-176 | hands a slot's value over under the slot's token and overwrites it, if the token has a destructor, and else does nothing |
| Drivers.Driver.RunDestructors | src/lr.c:177-202 | hands over, under their own tokens and in this order, what the lookahead's slot and then the stacked slots from the top down hold, for each token that has a destructor; a slot met again holds only zero |
| Drivers.Driver.Begin | src/lr.c:212-222 | the start state, with the first lexeme in slot 0 |
| Drivers.Driver.Shift | src/lr.c:254-264 | the memory left by one shift |
| Drivers.Driver.ReduceAndMove | src/lr.c:265-292 | the memory left by one reduction and the move of the lookahead |
| Drivers.Driver.Parse | src/lr.c:204-298 | the run is the abstract one and the memory that of the run, whatever rules it reduces; calls are the reductions; an error exit hands over what the slots hold under their own tokens; without empty reductions slots are packed, acceptance returns slot 0 with the fold of the tree, errors hand over each value still held under its own symbol, and every value is used once |
| Memories.PackedArguments | src/lr.c:52-63 | in a packed memory the arguments of a reduction are the folds of the popped trees, and its result goes to the first one's slot |
| Memories.ReduceDrives | src/lr.c:65-105 | a reduction with the move of the lookahead keeps stack, slots and calls those of the configuration |
| Memories.ShiftDrives | src/lr.c:254-264 | and so does a shift |
| Memories.ShiftedSlots | src/lr.c:254-264 | what a shift writes and what it leaves alone, slot by slot |
| Memories.ReducedSlots | src/lr.c:46-105 | what a reduction writes and what it leaves alone, slot by slot, empty rules included: an empty rule's result goes to the slot of the previous one |
| Memories.PoppedSlots | src/lr.c:54-63 | the arguments are what the popped slots hold, in the order of the rule |
| Memories.MemoryDrives | src/lr.c:204-298 | in every run, empty rules included, the stack interleaves slots with the states, all slots lie in the tables and the calls are the reductions; without empty reductions the slots are packed and hold their trees' values |
| Memories.PackedDestroyed | src/lr.c:158-202 | in a packed memory an error exit hands over what the trees and the lookahead stand for |
| Handings.ErrorHandsOver | src/lr.c:158-202 | in every run, empty rules included: the sequence handed over is exactly the tokens and values found in the lookahead's slot and then in the stacked slots from the top down, restricted to tokens with a destructor, with zero for a slot met before |
| Handings.PackedHandsOver | src/lr.c:177-202 | in a packed memory that is each stacked tree's symbol with its value, from the top down, after the lookahead's token with its value unless it is the error |
| Handings.PicksBalance | src/lr.c:177-202 | as a multiset: each token with its value as often as it is held, if the token has a destructor, and nothing else |
| Slots.PackedExactly | src/lr.c:46-105 | in every run, the slots of every configuration so far are 0..d-1 with the lookahead in d and every slot holding its value, if and only if no empty rule has been reduced |
| Slots.AssertedExactly | src/lr.c:275-292 | the assertion before the lookahead moves has held in a run if and only if no such turn found the last result in the lookahead's slot |
| Slots.NoEmptyAsserted | src/lr.c:275-292 | without empty reductions it never fails |
| Conservation.EveryValueOnce | src/lr.c:158-298 | at every exit, without empty reductions: values lexed and results computed are arguments, the accepted value, the lookahead, values handed over or values held without a destructor, each exactly once |
| Values.CallsAreReductions | src/lr.c:68-69 | the calls of the user's code are the reductions, in order |
| Values.ForestConserves | src/lr.c:158-298 | every lexed or reduced value is the argument of one reduction or still on the stack, exactly once |
| Munches.LongestUnique | src/lexer/matcher.c:134-248 | there is one longest match |
| Munches.TabStep | src/lexer/matcher.c:506-531 | the masked tab step reaches the next tab stop |
| Munches.StopIsMultiple | src/lexer/matcher.c:516-520 | which is the only multiple of the tab size within one tab beyond the column |
| Munches.PlaceStep | src/lexer/matcher.c:509-527 | one byte moves the counted line and column as a count from scratch says |
| Munches.PlaceMeans | src/lexer/matcher.c:509-527 | the counted line and column are those that the characters tell |
| Munches.ColumnUnique | src/lexer/matcher.c:509-527 | the characters tell one column only |
| Munches.PlainColumn | src/lexer/matcher.c:522-526 | without tab characters it is the number of characters since the last newline character |
| Scanners.Input.Get | src/lexer/matcher.c:573-576 | the input gives chunks of any size, none only at the end |
| Scanners.Matcher.constructor | src/lexer/matcher.c:97-132 | an empty buffer at the start of the stream |
| Scanners.Matcher.LineNo | src/lexer/matcher.c:506-533 | the line is one more than the newline characters in the stream before the match |
| Scanners.Matcher.ColumnNo | src/lexer/matcher.c:536-556 | the column is reached from the last newline character, or the start, by one for each character and by the least multiple of the tab size beyond for each tab character |
| Scanners.Matcher.Grow | src/lexer/matcher.c:251-346 | shifting or doubling makes room without moving any position of the stream |
| Scanners.Matcher.GetMore | src/lexer/matcher.c:349-365 | reading past the buffer yields the stream's next byte, or EOF at its end |
| Scanners.Matcher.Get | include/lexer/matcher_priv.h:153-156 | so does every read |
| Scanners.Matcher.PeekMore | src/lexer/matcher.c:598-616 | peeking yields it without moving |
| Scanners.Matcher.AtEnd | include/lexer/matcher_priv.h:166-170 | true exactly at the end of the stream |
| Scanners.Matcher.Enter | include/lexer/matcher_fsm.h:35-60 | entering a state records its rule as the best match so far |
| Scanners.Matcher.RunFsm | src/codegen/cg_pattern.cc:118-388 | the generated function ends with the best match of the whole remaining stream |
| Scanners.Matcher.Scan | src/lexer/matcher.c:134-248 | returns rule and length of the longest non-empty accepted prefix, or 0 without moving |
| Scanners.Matcher.ScanEach | src/lexer/matcher.c:134-248 | successive matches partition the stream, with any automaton for each |
| Examples.ReadmeMissesFirst | README.md:303-312 | on the README's example the sets miss a first token when expressions are visited first |
| Examples.ReadmeIsDecided | README.md:303-312 | for every visiting order, the driver on a clean table of the README's example accepts exactly its language |
| HeadExample.ComputedWithin | src/parsergen/canonical_collection.cc:84-128 | in any order a token is marked only if a chain of heads of rules leads to it |
| HeadExample.NullableHeadMissesFirst | src/parsergen/canonical_collection.cc:84-128 | so the token behind a nullable head is missed in every order |
| Rejections.RequestMissesFirst | src/parsergen/canonical_collection.cc:69-128 | in a grammar where calls and expressions begin with one another, calls are left without a first token |
| Rejections.SwappedKeepsFirst | src/parsergen/canonical_collection.cc:119-122 | with the two alternatives of expressions swapped, the head cut short by the cycle brings the name: calls begin with it, in every order that visits expressions first |
| Rejections.RequestHasNoConflict | src/parsergen/derivation.cc:210-278 | neither graph over such first sets has a conflict, so that the generator reports none |
| Rejections.SentenceRejected | src/parsergen/canonical_collection.cc:69-128 | and then the table of either parser type rejects a sentence, whatever the precedences, though its graph has no conflict |
| Covers.CoverNoConflict | src/parsergen/derivation.cc:149-279 | closed sets that contain what they advance to bound every state of either graph; if each asks for one move at most, there is no conflict |
| AcceptExample.FillInOrder | src/parsergen/derivation.cc:239-276 | a cell meets an acceptance and then a reduction: the reduction stays and nothing is counted; the other way round it is counted |
| AcceptExample.LoopAcceptsAndReduces | src/parsergen/derivation.cc:149-193 | in every graph of S -> S, S -> a a state accepts and reduces on end of input |
| AcceptExample.LoopTableGenerated | src/parsergen/derivation.cc:195-279 | for all first sets the grammar has a clean generated table: the one in which the acceptance gave way |
| AcceptExample.CleanButIncomplete | src/parsergen/derivation.cc:239-276 | and no clean table of it ever accepts the sentence a |
| NestExample.ClosureIsLarger | src/parsergen/derivation.cc:90-96 | a state of every canonical graph of S -> a S b, S -> c is not the textbook's closure of its kernel |
| EmptyExample.LeadHasNoConflict | src/parsergen/derivation.cc:210-278 | S -> E word, E -> (empty) has no conflict, so that its tables are clean |
| EmptyExample.EmptyRuleLosesToken | src/lr.c:46-105 | on every clean table of it the driver accepts the word, and calls the rule with the empty rule's value twice: the word's value is lost |
| EmptyExample.HoldHasNoConflict | src/parsergen/derivation.cc:210-278 | S -> W d, W -> b Z, Z -> c E, E -> (empty) has no conflict |
| EmptyExample.AssertionFails | src/lr.c:275-292 | and on every clean table of it the sentence b c d breaks the driver's assertion on the lookahead's slot in the fifth turn |
| PairExample.PairTableGenerated | test/canonical_collection_test.cc:73-82 | the expected LALR(1) table of the repository's test is a clean generated table of its grammar: there are computed first sets, a canonical graph and its quotient whose rows it holds |
| PairExample.PairTableDecides | test/canonical_collection_test.cc:73-82 | so on every input it answers within a linear number of turns, and accepts exactly the grammar's language |
| PairExample.PairTableAccepts | test/canonical_collection_test.cc:73-82 | on b b it accepts after six turns, by the three reductions of the tree |

## Left out

- Position data in reductions, `lr_parse_error`, error callbacks and the text of conflict messages; the conflict
  counters are kept.
- Drivers.Driver.Parse: runs for at most a given number of turns, because a grammar with empty rules or unit
  cycles can make the loop endless. `Termination.RunEnds` gives a bound after which every other run has ended;
  `Prefixes.ServedEnds`, which allows such rules, gives no bound.
- Drivers.Driver.Reduce: the user's reduction code is a pure function of rule and arguments, so reduction code with
  effects of its own is not modelled.
- Stack and table capacity, which the macros do not check: the stack and both tables grow as needed.
- A null destructor array is an empty set of tokens with a destructor.
- Pointers to states are positions in the order of creation; pointers to rules are rule numbers.
- Table words are numbers below 2^32 with the masks taken by division and remainder; a table with more than 2^29
  states or rules is reported as too large, where the program would let the payload run into the masks.
- The generator's lookahead sets are sets; `BitVector.dfy` proves the words apart from it. BitVector lengths are
  unbounded numbers.
- `ascii_mappings`: tokens are already in their `id + 256` form. A nonterminal without productions, for which the
  constructor reports an error, is excluded.
- The hash functions, `NeoastVector`, allocation, string emission in `src/codegen`, the bootstrap parser and `src/util`.
- Scanners.Matcher.Scan: indents and dedents, lookahead heads and tails, meta anchors, REDO and the `WITH_SPAN`
  branches are not modelled, so neither are the fields only they read.
- Scanners.Matcher.Get: bytes are 0..127; above that the program's two ways of reading differ in sign.
- The NUL that `matcher_text` writes behind the text and `matcher_reset_text` takes back: the text is a slice.
- `src/lexer/input.c`: the input is any source of chunks. Positions are unbounded numbers.
- Values across empty reductions: the memory they leave is described exactly, but the values returned and handed over
  are then not those of the tree, for the reason given above.
- Pipelines.ServesIffDecides: for productive grammars; for the others `Pipelines.GeneratedDecides` gives one direction.
- Prefixes.ServedEnds: for productive grammars.
- PairExample.PairTableGenerated: the table is one that the graph construction, the merging and the filling allow for
  the grammar; which of the equivalent numberings a program run picks depends on the order of its hash sets.
