# aitsi: fact tables, fact derivation and query evaluation

This project is a Dafny model of the core of aitsi, a static analyser for SIMPLE, a small imperative language.
SIMPLE programs are built from procedures, assignments, calls, `while` and `if`.
The analyser has two halves.

- **Parser side.** A recursive-descent parser reads a program and builds its syntax tree. While parsing it fills fact tables:
  - Follows between consecutive statements of a list;
  - Parent between a container and its direct children;
  - Modifies and Uses between statements and variables;
  - Calls between procedures.
- **Query side.** Queries are written in PQL, the program query language. A query declares synonyms and selects one of them.
  - `such that` clauses constrain the synonyms through relations: Follows, Follows*, Parent*, Uses and others.
  - `pattern` clauses match assignments by their right-hand side, or `while`/`if` statements by their condition variable.
  - `with` clauses compare attributes.
  - The query evaluator orders the relation clauses and case-splits on how each argument is bound. With and pattern clauses replace their synonym's domain, so a later clause on the same synonym discards what an earlier one kept; relation clauses only file their results in the results table. It stops on an unsatisfiable clause and prints the answer.

The model follows the source file by file. Each Dafny module corresponds to one source file.

| module | models |
|---|---|
| `StatementTables` | `aitsi_parser/StatementTable.py`, a class over a sequence of rows |
| `ModifiesTables`, `UsesTables` | `aitsi_parser/ModifiesTable.py`, `aitsi_parser/UsesTable.py`: classes over sorted row and column indexes and a set of cells; the two source files are the same code under different names, and so are the two modules |
| `Parsing` | `aitsi_parser/Parser.py`, a class over a token sequence |
| `ParserFacts` | what the parser records, as functions of the tree it returns |
| `FollowsRel` | `pql/relations/FollowsRelation.py` |
| `ParentTRel` | `pql/relations/ParentTRelation.py` |
| `UsesRel` | `pql/relations/UsesRelation.py` |
| `PatternMatch` | the expression matchers of `pql/QueryEvaluator.py` |
| `ClauseOrder` | the clause sort of `pql/QueryEvaluator.py` |
| `QueryEval` | the rest of `pql/QueryEvaluator.py`; class `Evaluator` holds `results`, `BOOLEAN`, `select` and the results-table log |

`Wrappers`, `Ordering`, `SetFacts`, `Chains`, `Texts`, `Answers` and `Ast` are shared helpers.

- `Ordering`: sorted sequences and the string order.
- `Chains`: walks along a partial map between lines.
- `Texts`: `str`/`int` on ASCII digits.
- `Answers`: what a relation evaluator returns.
- `Ast`: syntax-tree nodes and lexemes.

Collaborators whose source is not part of this model are inputs to the operations that use them:

- the Follows, Parent, Calls, procedure, variable and constant tables;
- the results table;
- `SearchUtils.find_node_by_line`;
- `Node.equals_expression`;
- the relation classes other than the three modelled.

Specifically:

- the Follows and Parent tables are maps from line to line;
- the results table is a log of the calls made on it;
- the AST search is a function from a line's text to an optional node;
- the other relations are entries of a map from relation name to the nine-method relation interface.

Python exceptions are modelled as values:

- an unsatisfiable clause (`raise Exception()`) is `Unsatisfiable`;
- a runtime error (KeyError, IndexError, ValueError, AttributeError) is `Fault` or `None`.

## Model

| member | source | states |
|---|---|---|
| Texts.NatTextRoundTrip | pql/QueryEvaluator.py:488-506 | `str` of a line number is a digit string, and `int` reads it back as the same number |
| Texts.IntTextInjective | pql/QueryEvaluator.py:312-327 | distinct line numbers have distinct texts, so keeping domains as texts loses no line |
| StatementTables.StatementTable.constructor | aitsi_parser/StatementTable.py:9-16 | a new table has no rows and satisfies the table invariant (distinct lines) |
| StatementTables.StatementTable.InsertStatement | aitsi_parser/StatementTable.py:18-23 | a line already present leaves the rows unchanged, so the first row wins; a new line is appended. The returned index is a row holding that line. Lines stay distinct |
| StatementTables.StatementTable.UpdateStatement | aitsi_parser/StatementTable.py:25-27 | reports whether the line exists. It merges the new keys into that row's info, with new keys winning, and leaves every other row and the row count unchanged |
| StatementTables.StatementTable.GetStatementLine | aitsi_parser/StatementTable.py:29-30 | defined exactly on valid row indexes; the line found maps back to the same index |
| StatementTables.StatementTable.GetStatementIndex | aitsi_parser/StatementTable.py:35-36 | defined exactly when the line is stored (otherwise IndexError); round trip with GetStatementLine |
| StatementTables.StatementTable.GetOtherInfo | aitsi_parser/StatementTable.py:38-39 | the second definition, which shadows the one at lines 32-33: the info dictionary of the row holding the line, defined exactly when the line is stored |
| StatementTables.StatementTable.GetStatementLineByTypeName | aitsi_parser/StatementTable.py:41-47 | the loop returns the lines whose `name` is the kind, in table order; a line is in the result iff it is stored with that kind |
| StatementTables.LinesOfTypeMembers | aitsi_parser/StatementTable.py:41-47 | membership in the lines of a kind is "stored, and its `name` entry is that kind" |
| StatementTables.LinesOfTypeSubsequence | aitsi_parser/StatementTable.py:41-47 | the lines of a kind are pairwise distinct and no more numerous than the rows |
| StatementTables.StatementTable.GetSize | aitsi_parser/StatementTable.py:49-50 | the number of rows, which is the number of distinct stored lines |
| StatementTables.StatementTable.IsIn | aitsi_parser/StatementTable.py:52-57 | the scan returns true iff some row holds the line |
| StatementTables.AllLinesMembers | pql/relations/ParentTRelation.py:107 | the listing taken for `get_all_statement_lines` (called here, not defined by the statement table) has one entry per row and contains exactly the stored lines |
| ModifiesTables.ModifiesTable.constructor | aitsi_parser/ModifiesTable.py:8-11 | an empty table with sorted (empty) indexes |
| ModifiesTables.ModifiesTable.SetModifies | aitsi_parser/ModifiesTable.py:13-25 | adds exactly the one fact and removes none. It inserts the variable and the line into their sorted indexes, and the indexes stay sorted |
| ModifiesTables.ModifiesTable.GetModified | aitsi_parser/ModifiesTable.py:27-34 | the loop returns, in ascending order, exactly the variables the line modifies; [] for an unknown line |
| ModifiesTables.ModifiesTable.GetModifies | aitsi_parser/ModifiesTable.py:36-43 | the loop returns, in ascending order, exactly the lines that modify the variable; [] for an unknown variable |
| ModifiesTables.ModifiesTable.IsModified | aitsi_parser/ModifiesTable.py:45-48 | true iff the fact was set; false whenever the variable or the line is absent |
| UsesTables.UsesTable.constructor | aitsi_parser/UsesTable.py:8-11 | an empty table with sorted (empty) indexes |
| UsesTables.UsesTable.SetUses | aitsi_parser/UsesTable.py:13-24 | adds exactly the one fact and removes none. It inserts the variable and the line into their sorted indexes, and the indexes stay sorted |
| UsesTables.UsesTable.GetUsed | aitsi_parser/UsesTable.py:26-33 | the loop returns, in ascending order, exactly the variables the line uses; [] for an unknown line |
| UsesTables.UsesTable.GetUses | aitsi_parser/UsesTable.py:35-42 | the loop returns, in ascending order, exactly the lines that use the variable; [] for an unknown variable |
| UsesTables.UsesTable.IsUsed | aitsi_parser/UsesTable.py:44-47 | true iff the fact was set; false when either key is absent |
| Ordering.InsertSorted | aitsi_parser/ModifiesTable.py:14-21 | inserting a key into a sorted index (`sort_index` after `reindex`) keeps it sorted, and its elements are exactly the old keys plus the new one |
| Ordering.InsertPresent | aitsi_parser/ModifiesTable.py:14-21 | re-inserting a key already in the sorted index returns the index unchanged |
| Ordering.InsertIdempotent | aitsi_parser/ModifiesTable.py:14-21 | inserting a key already present changes nothing, so a repeated `set_modifies`/`set_uses` leaves the table as it was |
| Ordering.StrLessStrictTotal | aitsi_parser/ModifiesTable.py:18 | the order `sort_index` uses on variable names is a strict total order |
| Parsing.Parser.constructor | aitsi_parser/Parser.py:23-37 | the parser starts at the first token at line 0, with empty fact tables, no current procedure and a PROGRAM root without children |
| Parsing.Parser.Match | aitsi_parser/Parser.py:39-44 | the matching token is consumed and becomes the previous token; on a mismatch nothing moves and one error is reported; no fact changes |
| Parsing.Parser.Expression | aitsi_parser/Parser.py:171-185 | the tree is right-nested with no precedence: a leaf, or an operator whose left child is a leaf and whose right child is again such a tree, all on the current line. Uses facts are recorded at most for its NAME leaves, and exactly for them on well-formed input. At end of input the source recurses without end (flagged `aborted`) |
| Parsing.Parser.Assignment | aitsi_parser/Parser.py:128-138 | builds ASSIGN [target, expression] at the current line. It records Modifies(target, line), adds the target to the variables, and adds exactly the statement's facts |
| Parsing.Parser.Call | aitsi_parser/Parser.py:101-107 | builds a CALL leaf at the current line and records Calls(current procedure, callee); no other fact |
| Parsing.Parser.WhileStatement | aitsi_parser/Parser.py:109-126 | builds WHILE [condition, list], numbered in pre-order. It adds exactly its facts: Uses of the condition, Parent to each direct child, its block's facts, and the ASSIGN/WHILE/IF children's Modifies and Uses copied to its own line |
| Parsing.Parser.IfStatement | aitsi_parser/Parser.py:140-169 | builds IF [condition, then-list, else-list], numbered in pre-order, and adds exactly its facts, for both branches as for WHILE |
| Parsing.Parser.AdoptChildren | aitsi_parser/Parser.py:117-123 | the loop over a finished block records Parent(container, child) for every child. It copies to the container exactly the Modifies and Uses facts of its ASSIGN, WHILE and IF children, never those of CALL |
| Parsing.Parser.Statement | aitsi_parser/Parser.py:90-99 | the statement gets the next line (`current_line + 1`), its subtree continues the count, and it adds exactly its facts |
| Parsing.Parser.StatementList | aitsi_parser/Parser.py:78-88 | the statements are numbered consecutively from the next line. It adds their facts, including Follows for each consecutive pair and none into the first statement. It stops at `}` unless input ran out |
| Parsing.Parser.Procedure | aitsi_parser/Parser.py:67-76 | adds the procedure name, makes it the current procedure, and adds the facts of its statements, its calls attributed to it |
| Parsing.Parser.Program | aitsi_parser/Parser.py:62-65 | appends the procedures to the root, numbered on from the current line across procedures, and adds exactly their facts |
| ParserFacts.ListNumberedLines | aitsi_parser/Parser.py:78-88 | the statements of a list numbered from `first` carry lines in `[first, first + size)`: lines are 1-based and increase in parse order |
| ParserFacts.FactLines | aitsi_parser/Parser.py:128-169 | every Modifies and Uses fact of a statement sits on a line of its own subtree |
| ParserFacts.AssignRecorded | aitsi_parser/Parser.py:128-138 | the steps of `assignment` (target with Modifies, expression with its Uses, `;`) add exactly the ASSIGN node's facts |
| ParserFacts.WhileRecorded | aitsi_parser/Parser.py:109-126 | the condition's Uses fact, then the block with its facts copied up, give exactly the WHILE node's facts |
| ParserFacts.IfRecorded | aitsi_parser/Parser.py:140-169 | condition, then-block and else-block give exactly the IF node's facts |
| ParserFacts.BlockRecorded | aitsi_parser/Parser.py:116-123 | parsing a block and then adopting its statements adds the block's facts with its children's facts copied to the container, and the container's Parent pairs |
| ParserFacts.ModPropagates | aitsi_parser/Parser.py:117-123 | a variable modified by an ASSIGN, WHILE or IF nested at any depth in a container is modified by that container: the copy up one level at a time reaches every enclosing WHILE and IF |
| ParserFacts.UsePropagates | aitsi_parser/Parser.py:117-123 | a variable used by an ASSIGN, WHILE or IF nested at any depth in a container is used by that container |
| ParserFacts.ListHas | aitsi_parser/Parser.py:78-88 | every statement's Modifies and Uses facts are among those of its statement list |
| ParserFacts.ProgFollowsShape | aitsi_parser/Parser.py:78-88 | the Follows pairs of a numbered program go from a line to a later one, both in the program's lines, and no line has two successors or two predecessors |
| ParserFacts.ProgParentShape | aitsi_parser/Parser.py:117-118 | the Parent pairs of a numbered program go from a container to a later line, and no line has two containers |
| ParserFacts.LastLeadsNowhere | aitsi_parser/Parser.py:81-87 | no Follows pair of a list starts at its last statement |
| ParserFacts.ListParentSkipsTop | aitsi_parser/Parser.py:117-118 | the top statements of a list are nobody's children in the list's own Parent pairs |
| ParserFacts.ListStep | aitsi_parser/Parser.py:81-87 | one more statement in a list adds its facts and a Follows pair from the previous statement |
| ParserFacts.ProcedureRecorded | aitsi_parser/Parser.py:67-76 | the procedure header names the caller, and the statement list's calls are attributed to it |
| ParserFacts.ProgStep | aitsi_parser/Parser.py:62-65 | one more procedure adds its facts to those of the procedures before it |
| FollowsRel.ParsedTableValid | aitsi_parser/Parser.py:81-87 | a Follows table holding exactly the pairs the parser derives from a numbered program, in both directions, satisfies the table invariant the Follows evaluator relies on |
| ParentTRel.ParsedTableValid | aitsi_parser/Parser.py:117-118 | a Parent table holding exactly the parser's Parent pairs, each child listed once, satisfies the table invariant the Parent* evaluator relies on |
| Chains.ChainReach | pql/relations/FollowsRelation.py:169-183 | an element is in the complete walk from a line iff it is reached from that line in one or more steps |
| Chains.ChainsAgree | pql/relations/FollowsRelation.py:169-183 | a map has only one complete walk from a line |
| Chains.UpDownMirror | pql/relations/FollowsRelation.py:169-183 | climbing a map reaches `y` from `x` iff descending its inverse reaches `x` from `y` |
| FollowsRel.HasSuccessor | pql/relations/FollowsRelation.py:62-65 | a line has a successor entry iff it is followed by some line |
| FollowsRel.HasPredecessor | pql/relations/FollowsRelation.py:67-70 | a line has a predecessor entry iff it follows some line |
| FollowsRel.LinesAfter | pql/relations/FollowsRelation.py:169-175 | the while loop returns the successor chain of `n`, in order |
| FollowsRel.LinesBefore | pql/relations/FollowsRelation.py:177-183 | the while loop returns the predecessor chain of `m`, nearest first |
| FollowsRel.LinesAfterIsChain | pql/relations/FollowsRelation.py:169-175 | the walk after `n` is a complete chain, each element the successor of the previous one, and the only one |
| FollowsRel.LinesBeforeIsChain | pql/relations/FollowsRelation.py:177-183 | the walk before `m` is a complete predecessor chain, and the only one |
| FollowsRel.AfterBeforeMirror | pql/relations/FollowsRelation.py:169-183 | `m` is in the walk after `n` iff `n` is in the walk before `m` |
| FollowsRel.StarChains | pql/relations/FollowsRelation.py:185-190 | Follows*(n, m) is membership of `m` in the walk after `n`, and of `n` in the walk before `m` |
| FollowsRel.StarTransitive | pql/relations/FollowsRelation.py:185-190 | Follows* is transitive |
| FollowsRel.StarForward | pql/relations/FollowsRelation.py:185-190 | Follows* only relates a line to later lines, so never to itself |
| FollowsRel.StarEnds | pql/relations/FollowsRelation.py:185-190 | a Follows* pair starts at a line with a successor and ends at a line with a predecessor |
| FollowsRel.StarSuccessor | pql/relations/FollowsRelation.py:192-195 | a line has a Follows* successor iff it has a Follows successor |
| FollowsRel.StarPredecessor | pql/relations/FollowsRelation.py:197-199 | a line has a Follows* predecessor iff it has a Follows predecessor |
| FollowsRel.DigitAndWildCard | pql/relations/FollowsRelation.py:62-65 | Follows(n, _) is true iff `n` is followed by some line |
| FollowsRel.WildCardAndDigitAsWritten | pql/relations/FollowsRelation.py:67-70 | as written, Follows(_, m) is true iff `m` is followed by some line (it asks for the successor) |
| FollowsRel.WildCardAndDigitMeaning | pql/relations/FollowsRelation.py:67-70 | the corrected Follows(_, m) is true iff some line is followed by `m` |
| FollowsRel.WildCardAndDigitMisses | pql/relations/FollowsRelation.py:67-70 | on the list `1; 2`, as written Follows(_, 2) is false though Follows(1, 2) holds; corrected it is true |
| FollowsRel.DigitAndKind | pql/relations/FollowsRelation.py:118-126 | Follows(n, T) lists exactly the successor of `n` when it has kind T (any kind for STMT) |
| FollowsRel.KindAndDigitMeaning | pql/relations/FollowsRelation.py:108-116 | Follows(T, m) lists exactly the predecessor of `m` when it has kind T |
| FollowsRel.WildCardAndKindMeaning | pql/relations/FollowsRelation.py:55-60 | Follows(_, T) lists exactly the lines of kind T that follow some line |
| FollowsRel.KindAndWildCardMeaning | pql/relations/FollowsRelation.py:101-106 | Follows(T, _) lists exactly the lines of kind T followed by some line |
| FollowsRel.TwoKindsMeaning | pql/relations/FollowsRelation.py:72-99 | Follows(T1, T2): the left result is the T1 lines followed by a T2 line, and the right result the T2 lines following a T1 line, both directions |
| FollowsRel.FollowsAnswers | pql/relations/FollowsRelation.py:15-53 | `follows` answers each of the nine argument classes (line, `_`, kind) with the Follows meaning above, e.g. `is_follows(n, m)` for two lines |
| FollowsRel.TTwoDigitsMeaning | pql/relations/FollowsRelation.py:185-190 | Follows*(n, m) for two lines is true iff `m` is reached from `n` by Follows steps |
| FollowsRel.TDigitAndWildCardMeaning | pql/relations/FollowsRelation.py:192-195 | Follows*(n, _) is true iff `n` has some Follows* successor |
| FollowsRel.TWildCardAndDigitMeaning | pql/relations/FollowsRelation.py:197-199 | Follows*(_, m) is true when `m` has a Follows* predecessor; otherwise the function returns None, not false |
| FollowsRel.TDigitAndKindMeaning | pql/relations/FollowsRelation.py:201-206 | Follows*(n, T) lists exactly the Follows* successors of `n` of kind T |
| FollowsRel.TKindAndDigitMeaning | pql/relations/FollowsRelation.py:216-221 | Follows*(T, m) lists exactly the Follows* predecessors of `m` of kind T |
| FollowsRel.TWildCardsAgree | pql/relations/FollowsRelation.py:208-229 | Follows*(_, T) and Follows*(T, _) list exactly the kind-T lines with a Follows* neighbour on that side |
| FollowsRel.HitsMeaning | pql/relations/FollowsRelation.py:231-266 | what the two-kind loop collects for one line: its Follows* predecessors for a STMT first argument, else its Follows* successors of the second kind |
| FollowsRel.TTwoKindsMeaning | pql/relations/FollowsRelation.py:231-266 | Follows*(T1, T2): the left result is the T1 lines with a later T2 line in their list, and the right result the T2 lines with an earlier T1 line |
| FollowsRel.TwoKindsWalk | pql/relations/FollowsRelation.py:231-266 | the for loops over the driving kind's lines compute exactly the two sets of the Follows*(T1, T2) answer |
| FollowsRel.FollowsTAnswers | pql/relations/FollowsRelation.py:128-167 | `follows_T` answers each of the nine argument classes with the Follows* meaning above |
| ParentTRel.FilteredMembers | pql/relations/ParentTRelation.py:151-165 | the filtering over a worklist keeps exactly its lines that pass the kind test |
| ParentTRel.AncestorChain | pql/relations/ParentTRelation.py:122-135 | Parent*(a, d) iff `a` is on the chain of containers of `d` |
| ParentTRel.DescendantsMeaning | pql/relations/ParentTRelation.py:167-171 | the descendants of `a` are exactly the `d` with Parent*(a, d) |
| ParentTRel.StarTransitive | pql/relations/ParentTRelation.py:173-183 | Parent* is transitive |
| ParentTRel.StarBackward | pql/relations/ParentTRelation.py:173-183 | a container precedes everything it contains, so Parent* never relates a line to itself |
| ParentTRel.WorklistStep | pql/relations/ParentTRelation.py:167-171 | extending the worklist with the children of its next entry keeps it a repetition-free list of descendants holding the children of every expanded entry |
| ParentTRel.WorklistDone | pql/relations/ParentTRelation.py:167-171 | a worklist with every entry expanded holds exactly the descendants |
| ParentTRel.DigitAndWildCard | pql/relations/ParentTRelation.py:167-171 | the worklist loop returns every transitive descendant of `a`, each once |
| ParentTRel.DigitAndKind | pql/relations/ParentTRelation.py:151-165 | Parent*(a, T) returns exactly the descendants whose kind passes the test: one of WHILE/IF/CALL/ASSIGN for STMT, else a substring test on the kind |
| ParentTRel.TwoDigits | pql/relations/ParentTRelation.py:173-183 | the worklist loop, stopping early when `b` shows up, returns true iff Parent*(a, b) |
| ParentTRel.KindAndDigit | pql/relations/ParentTRelation.py:122-135 | the ancestor loop returns exactly the containers of `m` whose kind is T (any statement kind for STMT) |
| ParentTRel.WildCardAndDigitAgrees | pql/relations/ParentTRelation.py:145-149 | where the code as written does not raise, it returns the containers of `m` |
| ParentTRel.WildCardAndDigitRaises | pql/relations/ParentTRelation.py:145-149 | for a statement nested two deep the code as written raises (it adds to the set it iterates), while the corrected answer lists both containers |
| ParentTRel.WildCardAndDigitMeaning | pql/relations/ParentTRelation.py:145-149 | the corrected Parent*(_, m) lists exactly the `a` with Parent*(a, m) |
| ParentTRel.WildCardAndKindMeaning | pql/relations/ParentTRelation.py:137-143 | Parent*(_, T) lists exactly the lines of kind T that have a container |
| ParentTRel.KindAndWildCardMeaning | pql/relations/ParentTRelation.py:104-120 | Parent*(T, _) lists exactly the lines passing T's test that contain some statement |
| ParentTRel.TwoKindsMeaning | pql/relations/ParentTRelation.py:53-102 | Parent*(T1, T2): the left result is the T1 ancestors of T2 lines, and the right result the T2 descendants of T1 lines, both directions |
| ParentTRel.Execute | pql/relations/ParentTRelation.py:15-48 | `execute` answers each of the nine argument classes with the Parent* meaning above; `(_, _)` returns the table's keys and values unchanged |
| UsesRel.SetAndSet | pql/relations/UsesRelation.py:19-20 | true iff the user uses the variable, read from either direction of the table |
| UsesRel.SetAndFree | pql/relations/UsesRelation.py:22-23 | exactly the variables the user uses |
| UsesRel.SetAndQuery | pql/relations/UsesRelation.py:25-28 | with `_` true iff the user uses some variable; otherwise the membership test |
| UsesRel.FreeAndSet | pql/relations/UsesRelation.py:30-39 | the users of the kind's universe that use `v`, a subset of that universe (procedures, every line for STMT, else the kind's lines) |
| UsesRel.FreeAndFreeMeaning | pql/relations/UsesRelation.py:41-60 | the left result is exactly the kind's users that use something. The right result is every used variable for PROCEDURE/STMT, and exactly the variables those lines use for another kind |
| UsesRel.UsedByLinesLoop | pql/relations/UsesRelation.py:57-59 | the loop gathers exactly the variables used by the given lines |
| UsesRel.FreeAndFreeLoop | pql/relations/UsesRelation.py:41-60 | the loop version computes the same pair as the set definition |
| UsesRel.FreeAndQuery | pql/relations/UsesRelation.py:62-80 | the kind's users that use the literal variable, or that use anything for `_` |
| UsesRel.QueryAndSet | pql/relations/UsesRelation.py:82-86 | with `_` the answer is whether any Uses fact exists, whatever `v` is; otherwise the membership test |
| UsesRel.QueryAndFree | pql/relations/UsesRelation.py:87-91 | the variables the literal user uses, every used variable for `_` |
| UsesRel.QueryAndQuery | pql/relations/UsesRelation.py:92-99 | true iff some fact fits both literals, `_` fitting anything; so `(_, v)` means `v` is used and `(s, _)` means `s` uses something |
| UsesRel.WildCardsMeanNonEmpty | pql/relations/UsesRelation.py:92-99 | `(_, _)` holds iff the table holds a fact, i.e. is non-empty in both dimensions |
| UsesRel.FromTableFaithful | aitsi_parser/UsesTable.py:44-47 | reading the parser's (variable, line) cells as (user text, variable) facts loses nothing |
| PatternMatch.IdenticalMeaning | pql/QueryEvaluator.py:258-265 | `expression_is_identical` holds iff the roots are equal and every child is identical to the pattern's child at its position |
| PatternMatch.IdenticalReflexive | pql/QueryEvaluator.py:258-265 | every tree is identical to itself |
| PatternMatch.IdenticalImpliesPart | pql/QueryEvaluator.py:244-256 | an exact match is also a part match, as written |
| PatternMatch.PartOnDifferentRoots | pql/QueryEvaluator.py:250-256 | when the roots differ, the part match as written holds iff some child part-matches |
| PatternMatch.ContainsMeaning | pql/QueryEvaluator.py:227-232 | the corrected `_"…"_` match holds iff some subtree is structurally identical to the pattern |
| PatternMatch.IdenticalImpliesContains | pql/QueryEvaluator.py:227-237 | an exact match is a containment match |
| PatternMatch.PartAsWrittenMisses | pql/QueryEvaluator.py:244-256 | on `x + y + z` the part match as written rejects `_"y + z"_`, which is a subtree |
| PatternMatch.PartAsWrittenInvents | pql/QueryEvaluator.py:244-256 | on `x + y + z` the part match as written accepts `_"x + y"_`, which is not a subtree |
| ClauseOrder.DegreeBounds | pql/QueryEvaluator.py:73-96 | every degree of restriction in the table lies between 1 and 10 |
| ClauseOrder.SortKey | pql/QueryEvaluator.py:157-160 | the key is defined iff the relation and both argument types are in the degree table; it is then their sum, between 3 and 30 |
| ClauseOrder.SortPermutes | pql/QueryEvaluator.py:150 | the sort is a permutation of the clauses |
| ClauseOrder.SortOrdered | pql/QueryEvaluator.py:150 | the sorted clauses are in ascending key order |
| ClauseOrder.SortStable | pql/QueryEvaluator.py:150 | clauses with equal keys keep their query order |
| ClauseOrder.SortClauses | pql/QueryEvaluator.py:149-150 | the sort fails iff some key raises; otherwise it returns a permutation of the clauses in ascending key order, stable on ties |
| ClauseOrder.StableSortUnique | pql/QueryEvaluator.py:150 | two ordered arrangements of the same clauses with the same ties are equal |
| ClauseOrder.SortClausesUnique | pql/QueryEvaluator.py:150 | any stable ascending arrangement of the clauses is the one the model computes, so the model's order is Python's |
| ClauseOrder.SuchThatOrder | pql/QueryEvaluator.py:148-155 | several clauses are sorted, a single one is taken as it is, key or no key, and none at all raises IndexError |
| QueryEval.ChooseArgument | pql/QueryEvaluator.py:280-296 | literal types pass through as raw text. A synonym with an absent or empty domain becomes (name, kind), with PROG_LINE mapped to STMT. Otherwise it becomes (name, domain), with a non-empty domain |
| QueryEval.JoinMeaning | pql/QueryEvaluator.py:312-327 | domain × domain: the first result is {a ∈ S1 \| ∃ b ∈ S2. R(a, b)}, the second the symmetric set |
| QueryEval.JoinNarrows | pql/QueryEvaluator.py:312-327 | the domain × domain join narrows both domains |
| QueryEval.LiteralJoinMeaning | pql/QueryEvaluator.py:346-360 | domain × literal (and literal × domain, lines 410-423) keeps exactly the domain values related to the literal |
| QueryEval.JoinFails | pql/QueryEvaluator.py:435-440 | a clause is unsatisfiable iff both arguments are literals and the relation does not hold |
| QueryEval.JoinStaysInDomains | pql/QueryEvaluator.py:307-440 | whatever a clause files under a bound synonym is drawn from that synonym's domain, in every binding case |
| QueryEval.JoinLoop | pql/QueryEvaluator.py:312-327 | the nested loops compute exactly the two sides of the domain × domain join |
| QueryEval.PartnersLoop | pql/QueryEvaluator.py:316-321 | the inner loop collects exactly the partners of one value |
| QueryEval.GatherLoop | pql/QueryEvaluator.py:332-339 | the loop keeps exactly the values with a non-empty answer and unions all the answers |
| QueryEval.FilterLoop | pql/QueryEvaluator.py:349-354 | the loop keeps exactly the domain values that pass the test |
| QueryEval.Execute | pql/QueryEvaluator.py:307-440 | the loops of every binding case compute exactly the results-table entries of the join specification, or unsatisfiability; nothing else changes |
| QueryEval.PatternLinesMeaning | pql/QueryEvaluator.py:195-201 | with a synonym or `_` target, the pattern's first domain is exactly the lines of the synonym's kind |
| QueryEval.KeptMeaning | pql/QueryEvaluator.py:223-242 | the check narrows the domain, keeping exactly the lines whose right side is identical to the pattern or, for `_"…"_`, contains it as a subtree (the corrected matcher of the Findings, not line 231's `expression_part_is_identical`) |
| QueryEval.CheckLoop | pql/QueryEvaluator.py:228-238 | the loop fails iff some line's check raises; otherwise it returns exactly the kept lines, under the corrected `_"…"_` matcher |
| QueryEval.AssignDomainNarrows | pql/QueryEvaluator.py:193-221 | an assignment pattern only ever narrows the lines its target part selects |
| QueryEval.ParseInt | pql/QueryEvaluator.py:495 | `int()` on a literal succeeds iff the text is digits, and reads `str(n)` back as `n` |
| QueryEval.AttrLiteralAtMostOne | pql/QueryEvaluator.py:488-517 | a literal on the right fixes the synonym to that literal or to nothing |
| QueryEval.AttrStatementMeaning | pql/QueryEvaluator.py:494-498 | the corrected `s.stmt# = n` keeps `n` exactly when statement `n` exists |
| QueryEval.AttrStatementAcceptsZero | pql/QueryEvaluator.py:494-498 | `s.stmt# = 0` keeps 0 as written, although no statement 0 exists; corrected it keeps nothing |
| QueryEval.AttrConstantMeaning | pql/QueryEvaluator.py:528-532 | the corrected `a.stmt# = c.value` keeps exactly the constants that are lines of the synonym's kind |
| QueryEval.AttrConstantMissesLine | pql/QueryEvaluator.py:528-532 | with an assignment at line 1 and the constant 1, the code as written keeps nothing; corrected it keeps line 1 |
| QueryEval.AttrNamesMeaning | pql/QueryEvaluator.py:534-545 | comparing two name attributes keeps exactly the names both sides range over |
| QueryEval.Resolve | pql/QueryEvaluator.py:120-137 | the reply when BOOLEAN is set agrees with the code as written |
| QueryEval.BooleanWithoutFilterRaises | pql/QueryEvaluator.py:120-121 | `Select BOOLEAN` with only such-that clauses raises KeyError as written; corrected the reply is true |
| QueryEval.ResolveNeverNegative | pql/QueryEvaluator.py:120-137 | unless BOOLEAN is false the reply is neither "none" nor "false" |
| QueryEval.Enumerate | pql/QueryEvaluator.py:135 | the loop lists every value of the domain exactly once |
| QueryEval.Render | pql/QueryEvaluator.py:120-137 | the text printed is the reply: "true"/"false", "none", or the values joined with ", " |
| QueryEval.Evaluator.constructor | pql/QueryEvaluator.py:30-114 | an evaluator starts with no domains, BOOLEAN unset, no select target and an empty results-table log |
| QueryEval.Evaluator.SettlePattern | pql/QueryEvaluator.py:187-191 | BOOLEAN becomes true and evaluation continues iff the synonym's domain is non-empty and BOOLEAN was not false; otherwise BOOLEAN becomes false and the clause is unsatisfiable |
| QueryEval.Evaluator.PatternWhileOrIf | pql/QueryEvaluator.py:168-191 | declares the synonym and records its domain: the kind's lines, or those with the condition variable. It then settles BOOLEAN as above. A clause with too few parts faults and leaves the domains and BOOLEAN unchanged; a one-part clause still declares its synonym in the log |
| QueryEval.Evaluator.PatternAssignCheck | pql/QueryEvaluator.py:223-242 | changes nothing when the pattern has no children. Otherwise it faults iff a line's check raises, or replaces the domain by exactly its kept lines and logs them |
| QueryEval.Evaluator.PatternAssign | pql/QueryEvaluator.py:193-221 | faults iff the assignment domain raises, in which case the first domain is left in place. Otherwise it stores the domain and settles BOOLEAN. The new state, log included, is that of `AssignStep` |
| QueryEval.Evaluator.AttrAnalysis | pql/QueryEvaluator.py:487-551 | faults, changing nothing, iff the domain raises. Otherwise it stores the with-clause domain. BOOLEAN becomes true iff the domain is non-empty, else false and unsatisfiable |
| QueryEval.Evaluator.RelationClause | pql/QueryEvaluator.py:267-278 | the new state and ending are those of `RelationStep`: both synonyms declared, a fault on a missing relation, unsatisfiable iff the join fails, else exactly the join's entries logged; domains, BOOLEAN and select unchanged |
| QueryEval.Evaluator.PatternAnalysis | pql/QueryEvaluator.py:162-166 | a PATTERN_WHILE or PATTERN_IF clause goes to `pattern_while_or_if`, any other to `pattern_assign`; the new state is the pattern step's |
| QueryEval.Evaluator.WithGroup | pql/QueryEvaluator.py:142-144 | the new state and ending are the fold of the with steps over the clauses, stopping at the first that does not continue. When every clause passes, each synonym has a non-empty domain and BOOLEAN is unchanged or true |
| QueryEval.Evaluator.PatternGroup | pql/QueryEvaluator.py:145-147 | the new state and ending are the fold of the pattern steps over the clauses. When every clause passes, each synonym has a non-empty domain and BOOLEAN is unchanged or true |
| QueryEval.Evaluator.SuchThatGroup | pql/QueryEvaluator.py:151-152 | the new state and ending are the fold of the relation steps over the sorted clauses; relation clauses only add to the results-table log, and domains, BOOLEAN and select are unchanged |
| QueryEval.Evaluator.Distribute | pql/QueryEvaluator.py:139-155 | the new state and ending are `DistributeStep`'s; what that step does is stated by QueryEval.DistributeFacts |
| QueryEval.Evaluator.EvaluateQuery | pql/QueryEvaluator.py:116-137 | the final state is the fold of the groups. The outcome is Unsatisfied exactly when the fold ends on an unsatisfiable clause, Failed exactly when it ends on a runtime error, and otherwise the rendered reply for the final state. Without a false BOOLEAN the reply is never "none" or "false". A query without WITH or PATTERN groups leaves domains and BOOLEAN unchanged |
| QueryEval.StepFrame | pql/QueryEvaluator.py:162-278 | one clause never changes the select target and only adds to the log. A with clause logs nothing, and a relation clause leaves domains and BOOLEAN alone. A with or pattern clause that continues leaves its synonym non-empty and BOOLEAN true |
| QueryEval.StepStatus | pql/QueryEvaluator.py:162-278 | a clause ends as computed from the program tables and the domains on entry (unless a pattern clause meets a BOOLEAN already false) |
| QueryEval.AssignStatus | pql/QueryEvaluator.py:193-221 | `pattern_assign` raises iff its domain's computation raises, is unsatisfiable iff that domain is empty, and otherwise continues |
| QueryEval.Narrowing | pql/QueryEvaluator.py:162-278 | a clause writes no domain but its own synonym's |
| QueryEval.FoldStops | pql/QueryEvaluator.py:142-152 | once a clause of a group stops, the later clauses change nothing |
| QueryEval.FoldFrame | pql/QueryEvaluator.py:142-152 | a group never changes the select target and only adds to the log. A with group logs nothing, and a such-that group leaves domains and BOOLEAN alone |
| QueryEval.FoldNonEmpty | pql/QueryEvaluator.py:142-152 | a with or pattern group that continues leaves BOOLEAN true (when it has a clause) and every clause's synonym with a non-empty domain |
| QueryEval.StepFills | pql/QueryEvaluator.py:162-221 | a with or pattern clause that continues sets BOOLEAN true and gives its synonym a non-empty domain, and the synonyms of earlier clauses keep theirs |
| QueryEval.FirstStopMeaning | pql/QueryEvaluator.py:142-152 | the first ending in a list that is not Continue: Continue exactly when every ending is Continue (both directions), otherwise an ending in the list preceded only by Continue |
| QueryEval.FoldMatchesStatus | pql/QueryEvaluator.py:142-152 | a group ends as the first clause ending, read from the domains on entry, that is not Continue (for a pattern group, once BOOLEAN is not already false) |
| QueryEval.FoldStatus | pql/QueryEvaluator.py:142-152 | a group continues iff every clause would (both directions), and otherwise ends as its first clause that does not |
| QueryEval.DistributeFacts | pql/QueryEvaluator.py:139-155 | only RESULT sets the select target (faulting iff it has no child), only WITH and PATTERN change domains and BOOLEAN, an unsortable SUCH_THAT faults, and other nodes are skipped |
| QueryEval.QueryStops | pql/QueryEvaluator.py:117-118 | once a group stops the query, the later groups change nothing |
| QueryEval.QueryFoldFrame | pql/QueryEvaluator.py:117-118 | over a whole query the log only grows. Without WITH and PATTERN groups, domains and BOOLEAN stay as they were. A run that continues never turns BOOLEAN false |
| QueryEval.QuerySelects | pql/QueryEvaluator.py:117-141 | a run that continues selects the first child of its last RESULT group, or keeps the target it started with |
| QueryEval.SelectStep | pql/QueryEvaluator.py:140-141 | one more group keeps the select target unless it is a RESULT group, which sets it |

## Left out

- The regex lexer (`get_token`, aitsi_parser/Parser.py:46-57) and the JSON export (`get_node_json`): the parser reads a given sequence of (kind, text) tokens, and input that has run out reads as the empty token.
- `error()` prints: modelled as a counter of reported errors.
- The pandas mechanics (`reindex`, `fillna`, `sort_index`, `drop_duplicates`, NaN cells): each table is sets and sequences with 1 meaning present.
- Tables whose source is not part of this model:
  - the Follows, Parent, Calls, procedure, variable and constant tables;
  - the results table;
  - `SearchUtils.find_node_by_line` and `Node.equals_expression`.
- How those tables are treated:
  - the parser records the Follows, Parent and Calls facts, procedures and variable names as sets;
  - the relations read the Follows and Parent tables as maps;
  - `Node.equals_expression` is taken to compare type and value;
  - the query side receives `get_statement_line_by_type_name_and_value`, `find_node_by_line` and the constant, procedure and variable lists as values.
- The relation classes other than Follows/Follows*, Parent* and Uses: they are entries of the `relations` map behind the nine-method interface.
  - Only Uses has that interface in the source. `FollowsRelation` and `ParentTRelation` expose `follows`/`follows_T`/`execute` instead.
  - `execution_of_relation` would fail on them; the model evaluates them on their own.
- The retroactive re-check of earlier relations (pql/QueryEvaluator.py:442-484) and `check_stack_on_return`: both depend on the results table, whose source is not part of this model, and the latter is disabled at line 153. In the second-argument branch, line 473 splits `relation[-1]`, the last character of the loop variable, rather than `relations[-1]`, so `relation_data[1]` raises IndexError whenever that branch is reached (read from the code, not executed).
- The entry-point scripts, `pql/Reference.py` and the REPL loop: I/O only.
- Argument order in UsesRelation:
  - it passes (statement, variable) to `UsesTable.is_used`, which takes (variable, statement);
  - it calls `get_all_index`/`get_all_columns`, which the shown table lacks.
  - The relation is modelled over (user, variable) facts in the order its calls intend; `UsesRel.FromTableFaithful` relates them to the parser's table.
- FollowsRel.TwoKindsMeaning, and FollowsRel.FollowsAnswers through it: pql/relations/FollowsRelation.py:93 reads `follows_table.columns`, which the table object lacks (every other line reads `follows_table.table.columns`), so it raises AttributeError as written; the model uses the table's column index, as intended.
- ParentT set iteration:
  - the updates at pql/relations/ParentTRelation.py:112 and 117 add nothing: lines 108-109 already put every line's container in the set, and containers are lines. As written, line 107 raises first (see `ParentTRel.KindAndWildCardMeaning` below). The model gives the intended upward closure;
  - for line 146-149 both the code as written and the closure are given (see Findings);
  - the multi-start list worklists of the two-kind branch are modelled by the sets they produce, not their order or repetitions.
- Listing every statement line: the relations and the evaluator call `get_all_statement_lines`, which aitsi_parser/StatementTable.py does not define, so each call raises AttributeError as written. The model takes it to list every stored line, in table order (`StatementTables.AllLines`, whose contents `StatementTables.AllLinesMembers` states). The members built on that assumption follow.
- ParentTRel.WildCardAndKindMeaning: for `Parent*(_, STMT)` the source calls `get_all_statement_lines` (pql/relations/ParentTRelation.py:139), which raises AttributeError as written; the model ranges over every stored line.
- ParentTRel.KindAndWildCardMeaning: `_parent_T_str_type_wild_card` calls `get_all_statement_lines` for every kind (pql/relations/ParentTRelation.py:107), so `Parent*(T, _)` always raises AttributeError as written; the model ranges over every stored line.
- ParentTRel.TwoKindsMeaning: with STMT on either side the source calls `get_all_statement_lines` (pql/relations/ParentTRelation.py:63, 86), which raises AttributeError as written; the model ranges over every stored line.
- ParentTRel.Execute: inherits the three assumptions above for the `(_, T)`, `(T, _)` and `(T1, T2)` cases.
- UsesRel.FreeAndSet: for STMT the source calls `get_all_statement_lines` (pql/relations/UsesRelation.py:36), which raises AttributeError as written; the model ranges over every stored line.
- UsesRel.FreeAndFreeMeaning: for STMT the source calls `get_all_statement_lines` (pql/relations/UsesRelation.py:49), which raises AttributeError as written; the model ranges over every stored line.
- UsesRel.FreeAndQuery: for STMT the source calls `get_all_statement_lines` (pql/relations/UsesRelation.py:72, 77), which raises AttributeError as written; the model ranges over every stored line.
- QueryEval.Resolve: an unconstrained STMT or PROG_LINE select target calls `get_all_statement_lines` (pql/QueryEvaluator.py:125), which raises AttributeError as written; the model lists every stored line.
- ParentTRel.Passes: a line with no statement row, or a row without `name`, fails the kind test, where the source's `get_other_info(line)['name']` raises IndexError or KeyError. The Parent* members built on it therefore answer where the source would raise.
- Follows and Parent table invariants: the evaluators assume `FollowsRel.Valid` and `ParentTRel.Valid` of the tables they read. `FollowsRel.ParsedTableValid` and `ParentTRel.ParsedTableValid` show that a table holding exactly the parser's facts satisfies them. That the unseen table classes store exactly those facts, and list each child once, is assumed.
- Value identity: query domains hold texts, so the integer 3 and the string "3" are one value. Python keeps both in one set at lines 232 and 238 (ints) against 491 and 496 (strings).
- `int()` also accepts signs and surrounding blanks; the model accepts digits only.
- Texts.IsDigits and Texts.DigitsValue: only the ASCII digits 0-9 count, where Python's `int()` also reads other Unicode decimal digits.
- `pattern_while_or_if` stores a list, not a set (lines 176, 184), so `choosing_an_argument` would later treat that synonym as unbound by `type(...) is set`. The model stores it as a domain.
- Set iteration order in the printed answer: the model allows any order of a domain's values (`Renders`).
- The in-place sort of the query tree's children is modelled by the returned order, not by mutating the tree.
- A statement row without a `name` entry makes `get_statement_line_by_type_name` raise KeyError; in the model such a row matches no kind.
- Exceptions escaping `evaluate_query`: none of the shown entry points (main_pql.py:69-71, pql/main.py:60-62) catches them, and spa.py uses a `PQL` class that main_pql.py does not define. Turning an exception into "none" or "false" is the evidently intended behaviour, in code that is not shown. `EvaluateQuery` returns `Unsatisfied` or `Failed` instead of a text.
- The relation lookup `self.relation[node_type]` is done before the loops rather than at the first call. The two differ only for an empty domain, which `choosing_an_argument` never hands on as bound.
- Parsing.Parser.Expression: at end of input the source recurses without end; the model stops and sets `aborted`, and states no facts past that point.
- Parsing.Parser.Assignment: Uses facts are exact only for input without earlier errors. After a mismatch the leaf is copied from the previous token, and the callee of a malformed call is read before `NAME` is matched.
- QueryEval.KeptMeaning: for `_"…"_` the check (`QueryEval.LineCheck`) uses the corrected matcher `PatternMatch.Contains` (some subtree identical to the pattern), not `expression_part_is_identical` as pql/QueryEvaluator.py:231 calls it; the as-written matcher is `PatternMatch.PartAsWritten`. On the inputs of the third Findings row the answers differ: `z = x + y + z;` with `_"x + y"_` is kept by the source and not by the model, and with `_"y + z"_` the other way round.
- QueryEval.CheckLoop: keeps its lines by the same corrected matcher, not line 231's.
- QueryEval.Evaluator.PatternAssignCheck: replaces the domain by the lines the corrected matcher keeps, not line 231's.
- QueryEval.Evaluator.PatternAssign: its domain after the expression check is the corrected matcher's, not line 231's.
- QueryEval.AttrDomain: uses the corrected `stmt#` and CONSTANT branches of the Findings, not pql/QueryEvaluator.py:495 (which also keeps 0) and 532 (which looks the constants up by the synonym's name). The as-written branches are `QueryEval.AttrStatementAsWritten` and `QueryEval.AttrConstantAsWritten`.
- QueryEval.Evaluator.AttrAnalysis: stores `QueryEval.AttrDomain`, so its `stmt#` and CONSTANT domains are the corrected ones, not those of lines 495 and 532.
- Exact pattern match: `pattern_assign_check` compares the program node against the whole pattern node (line 237), and only when that node has children (line 224). It is modelled as written. Without the query parser it cannot be told which side is wrong.
- FollowsRel.TWildCardAndDigitMeaning: the "falls off the end" case is stated as `NoAnswer` (Python's None), which the query side treats as false.

## Findings

| source | as written | input that shows it | evidently intended | confidence | as-written member | corrected member |
|---|---|---|---|---|---|---|
| pql/relations/FollowsRelation.py:67-70 | `_wild_card_and_digit` asks `get_child(m)`, i.e. whether `m` has a successor | program `1; 2`: Follows(_, 2) is false although Follows(1, 2) holds | true iff `m` has a predecessor | not executed | FollowsRel.WildCardAndDigitAsWritten (FollowsRel.WildCardAndDigitMisses) | FollowsRel.WildCardAndDigit (FollowsRel.WildCardAndDigitMeaning) |
| pql/relations/ParentTRelation.py:145-149 | adds each container's container to the set being iterated | `while x { while y { z = 1; } }`, query Parent*(_, 3): RuntimeError | every container of `m` | not executed | ParentTRel.WildCardAndDigitAsWritten (ParentTRel.WildCardAndDigitRaises) | ParentTRel.WildCardAndDigit (ParentTRel.WildCardAndDigitMeaning) |
| pql/QueryEvaluator.py:244-256 | on equal roots it part-matches child against child and never searches deeper | `x = x + y + z;` with `_"y + z"_` rejected, with `_"x + y"_` accepted | some subtree identical to the pattern | not executed | PatternMatch.PartAsWritten (PatternMatch.PartAsWrittenMisses, PatternMatch.PartAsWrittenInvents) | PatternMatch.Contains (PatternMatch.ContainsMeaning) |
| pql/QueryEvaluator.py:528-532 | looks the constants up among the lines of the kind named by the synonym's name (`.value`) | `assign a; constant c; Select a with a.stmt# = c.value` on `x = 1;` at line 1: nothing | the lines of the synonym's kind (`.node_type`) | not executed | QueryEval.AttrConstantAsWritten (QueryEval.AttrConstantMissesLine) | QueryEval.AttrDomain (QueryEval.AttrConstantMeaning) |
| pql/QueryEvaluator.py:494-498 | keeps `n` when `n <= get_size()` | `stmt s; Select s with s.stmt# = 0`: keeps 0 | keep `n` when statement `n` exists | not executed | QueryEval.AttrStatementAsWritten (QueryEval.AttrStatementAcceptsZero) | QueryEval.AttrDomain (QueryEval.AttrStatementMeaning) |
| pql/QueryEvaluator.py:120-122 | reads `results['BOOLEAN']`, set only by pattern and with clauses | `Select BOOLEAN such that Parent(1, 2)` on a program where it holds: KeyError | BOOLEAN defaults to true, as `results.get('BOOLEAN', True)` reads it at lines 187 and 217 | not executed | QueryEval.ResolveAsWritten (QueryEval.BooleanWithoutFilterRaises) | QueryEval.Resolve (QueryEval.ResolveNeverNegative) |
