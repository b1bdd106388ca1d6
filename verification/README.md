# pbpp, verified

pbpp reads a set of proto3 files, selects what a list of rules keeps, deletes
the rest and formats what is left. Its promises are global: the pruned set is
closed, every surviving name still means the same thing, field numbers are
never reused, deleting is exact, formatting is stable and loses no comment, and
writing the output directory is safe under crashes. This project models the
code behind these promises in Dafny and proves them for all inputs.

`dafny verify dfyconfig.toml` checks everything.

## Components

| files | part of pbpp |
|---|---|
| Symbols, Decisions, Closure, Marking, Selection, KeepSet | rule decisions, the keep-set worklist with its four mark levels, cascades, conflicts, enum legality, provenance; what is kept, said without the worklist |
| Namespace, Resolution, Shadowing | the namespace tree, first-segment-anchored lookup, and what pruning does to it |
| Imports, Bridges, PrunedSet, Arenas | import checking, `import public`, bridge files, the headline theorem about pruned sets, the shared arenas |
| Edits, Pruner, PrunedText, DeletedComments, InsertedText, Placement, Overrun, OverrunExample | the visitor with its shared scratch stack, the edit list, where the parser's nodes stand in the text, what is deleted of it and what the inserted characters mean |
| Layout, Attachment, Comments, LayoutRoundTrip, FormatStable, Formatting, Stability, Printing, BlankLines | comment attachment, the printer's line discipline, their round trip, and the formatted file line by line |
| Syntax, TextFormat, TextRoundTrip, Grammar, GrammarRoundTrip, Cursors | the token grammar, statements and text-format aggregates, printed and parsed |
| Spelling, FileSpelling, Numerals | the grammar as rules: which tokens spell which tree, which digits spell which number |
| NameOrigins, BracketNames | which files read back after printing |
| Locality, PrunedTree, PrunedParse, Weaving, Knots, PrunedTokens, PrunedShape | what is left in the text of a pruned file, token by token, parses, and to which tree |
| Swar | the lexer's 8-bytes-at-a-time scanners |
| Manifest, Sync, Convergence | the output directory as a protocol |

Code that updates state in place is modelled by classes (`Selection.Worklist`,
`Namespace.Tree`, `Bridges.Fixpoint`, `Pruner.Pruner`, `Attachment.Parser`,
`Printing.Printer`, `Cursors.Reader`, `Cursors.Writer`) or by methods with
loops, each proved against a function or predicate about which the theorems
are stated.

## Where the code does less than its documentation says

Five properties that the documentation promises or that a user would expect do
not hold for all inputs. For each the project proves when they hold and gives
an input for which they fail.

* Pruning can break a surviving reference. `add_symbol` lets a package path run
  through a field, enum value or method. While the leaf exists, lookup passes
  over it; once it is dropped, its node is a bare package and stops the lookup.
  `Resolution.ResolutionPreserved` is the exact condition for one reference,
  `Resolution.ExposedLeaf` says where it can fail, `PrunedSet.PruningPreservesMeaning`
  carries the checkable condition, and module Shadowing is the input, with the
  rules that select it.
* Deleting can take tokens of statements that stay. A comment among the tokens
  of an item, before an opening brace or before an empty statement becomes the
  leading comment of the next item; if that one is deleted, the deletion starts
  at the comment. `PrunedText.DeletionIsExact` is the exact condition,
  `Overrun.TidyIsExact` a condition on sources, and
  `OverrunExample.BraceIsDeleted` the input. The insertions are right in all
  cases (`PrunedText.ReservedAtBrace`, `PrunedText.NothingElseInserted`).
* Formatting can move a comment into another slot. If an empty statement, or a
  comment among the tokens of the previous item, stands between a detached
  comment and the next item, the blank line after the comment is not the item's,
  and the printer writes none. `Formatting.SlotsKept` is the exact condition,
  `Stability.TidyIsStable` the condition on sources, and
  `Stability.EmptyStatementMovesComment` the input. In the layout model the text
  itself is stable in all cases (`Formatting.FormatIdempotent`).
* A bracket name `[a/ /b]` is stored as `a//b` and printed so, and the two
  slashes start a comment when the text is read again.
  `BracketNames.TwoSlashesAreGlued` is the input, `TextRoundTrip.NameReadable`
  the exact condition for one name, and `BracketNames.FileReadsBackExactly` the
  one for a file.
* An output sync can be refused although all its paths are valid. A new file
  below a path of the last generation is written before that path is removed,
  and its parent is still a file. `Convergence.SyncReachesTarget` is the exact
  condition, `Convergence.NewBelowOld` and `Convergence.StaleBecomesDirectory`
  are inputs.

## Model

| member | source | states |
|---|---|---|
| Symbols.AncestorBound | src/sema.rs:460-517 | a symbol's ancestors are created before it, so every parent walk ends |
| Symbols.AncestorTransitive | src/sema.rs:460-517 | ancestry along parent links is transitive |
| Decisions.EvaluateRules | src/select.rs:183-247 | each symbol gets its last matching rule, where a keep rule matches no builtin; refused exactly when some rule matches nothing |
| Decisions.DecisionPass | src/select.rs:117-136 | the one forward pass gives every symbol the last rule that matches it or one of its ancestors |
| Decisions.DecisionUnique | src/select.rs:117-136 | at most one decision satisfies the declarative definition over self and ancestors |
| Decisions.BuiltinsNeverKept | src/select.rs:117-136 | no rule ever keeps a well-known builtin |
| Closure.LeastIsClosed | src/select.rs:427-468 | the reference keep set contains all free seeds, free children of kept definitions and targets of kept fields and methods |
| Closure.LeastIsJustified | src/select.rs:427-468 | it contains nothing else: it lies inside every closed set |
| Closure.ExcludedStaysOut | src/select.rs:357-394 | an excluded symbol is never a full keep |
| Closure.FreeTargets | src/select.rs:357-394 | no target of a free symbol is excluded |
| Marking.CascadedValid | src/select.rs:373-394 | recording a cascade drop keeps the worklist invariant |
| Marking.PushedValid | src/select.rs:396-425 | raising a mark and enqueueing the symbol keeps the worklist invariant |
| Selection.Worklist.Check | src/select.rs:357-394 | references are looked at in order; the first excluded one decides between refusal and cascade |
| Selection.Worklist.KeepAncestors | src/select.rs:396-416 | the unmarked ancestors become containers, introduced by their child |
| Selection.Worklist.Raise | src/select.rs:396-400 | the mark of the symbol rises, no mark falls, and its introduction is recorded with the first mark |
| Selection.Worklist.Keep | src/select.rs:357-425 | keeping a considered symbol settles it or refuses for a justified reason |
| Selection.Worklist.SeedAll | src/select.rs:138-156 | every symbol that a rule keeps is settled before the worklist runs |
| Selection.Worklist.Process | src/select.rs:427-468 | the contents of one full keep are all answered |
| Selection.Worklist.Drain | src/select.rs:157-164 | the FIFO worklist ends, with every full keep processed |
| Selection.Worklist.WhyKept | src/select.rs:504-529 | the chain in a conflict report is finite, follows recorded introductions and ends at a symbol a rule keeps |
| Selection.Finished | src/select.rs:357-468 | when the queue is empty the marks are exactly those of the least keep set: full keeps, containers and nothing more |
| Selection.ContainersExact | src/select.rs:396-416 | the containers are exactly the strict ancestors of full keeps that are not full keeps themselves |
| Selection.Close | src/select.rs:138-164 | the closure succeeds exactly when no considered symbol has a forbidding first exclusion, whatever the visiting order |
| Selection.JustifiedConflicts | src/select.rs:471-557 | a refusal names a considered symbol whose first excluded reference really forbids it |
| KeepSet.KeepsLeast | src/select.rs:427-468 | the full keeps are the least set that has what rules keep, what kept messages, enums and services contain and what kept fields and methods refer to, as far as no reference leads to what is taken out |
| KeepSet.ContentIsKept | src/select.rs:438-457 | a field, value or method of a kept definition that is not taken out and refers to nothing taken out is kept, as required if no rule keeps it |
| KeepSet.ReferencesAreKept | src/select.rs:459-463 | what a kept field or method refers to is kept |
| KeepSet.KeptForAReason | src/select.rs:427-468 | a full keep is kept by a rule, or is such content of a full keep or the target of one; its mark says whether a rule keeps it |
| KeepSet.RefusedOnClash | src/select.rs:373-394 | the closure is refused exactly when the first reference to something taken out, of a symbol that would be kept, leads to a `-`, or to a `-!` older than the rule that keeps it |
| KeepSet.CascadesExactly | src/select.rs:373-394 | and a symbol is cascaded away exactly when that first reference leads to another `-!` |
| Selection.CheckEnumLegality | src/select.rs:265-313 | succeeds exactly when every surviving enum keeps a value and its first surviving value is zero |
| Selection.Select | src/select.rs:101-180 | selection as a whole: success if and only if the declarative condition holds, and then the marks are the declarative marks, which the lemmas of KeepSet describe by children, references and decisions alone |
| Selection.ForestOf | src/select.rs:396-416 | every introduction link goes to a symbol marked earlier, and only explicit seeds have none |
| Selection.ChainExists | src/select.rs:504-521 | from every marked symbol the introductions lead to an explicit seed, without a cycle |
| Namespace.Tree.Intern | src/sema.rs:409-421 | interning returns the node of the extended path and leaves the meaning of all other paths alone |
| Namespace.Tree.Define | src/sema.rs:460-517 | defining a symbol at a free path adds exactly that definition; a taken path is refused |
| Namespace.Tree.DescendSyms | src/sema.rs:288-303 | descending from a node finds the definition at the extended path, if any |
| Namespace.Tree.ResolvePath | src/sema.rs:970-1017 | the outward walk computes the declarative resolution: the innermost scope that anchors the first segment decides |
| Namespace.ResolutionUnique | src/sema.rs:970-1017 | a reference resolves to at most one outcome |
| Resolution.ResolutionPreserved | src/sema.rs:970-1017 | in any smaller space that still has the target, the reference keeps its meaning if and only if nothing newly anchors between scope and target |
| Resolution.MeaningLeft | src/prune.rs:68-134 | the same for the space of a pruned file set |
| Resolution.ExposedLeaf | src/sema.rs:296-303 | a new anchor can only be the path of a dropped field, enum value or method through which a surviving package path runs |
| Resolution.OnlyPackagesBelowLeaves | src/sema.rs:460-517 | below the path of a field, enum value or method there are only package segments |
| Resolution.NothingShadowed | src/prune.rs:68-134 | if no surviving package path runs through a dropped leaf, every reference to a survivor keeps its meaning |
| Shadowing.MeansBefore | src/sema.rs:970-1017 | in the concrete example the reference resolves before pruning |
| Shadowing.MeansNothingAfter | src/sema.rs:970-1017 | and does not resolve after pruning, although its target survives |
| Shadowing.DemoIsCollected | src/sema.rs:518-563 | the example is a well-formed collected program |
| Shadowing.LeftIsSelected | src/select.rs:101-180 | three rules select just the symbols that are left in the example, and the selection succeeds |
| Imports.CollectLines | src/sema.rs:778-819 | import lines are accepted exactly when every path is an input or a well-known file |
| Imports.ReachPub | src/sema.rs:760-776 | the recursion with one shared visited set reaches exactly the files on `import public` chains and the well-known paths imported publicly there, on any graph |
| Imports.ProvideSet | src/sema.rs:821-833 | `provides[f]` is the reflexive-transitive closure of `import public` from f |
| Imports.VisibleSet | src/sema.rs:834-855 | a file sees itself, what it imports and what those provide |
| Imports.CheckImports | src/sema.rs:756-862 | the whole check, with provide sets and visible sets exact for every file |
| Arenas.CountChildren | src/sema.rs:696-708 | the counting pass counts the children of every symbol |
| Arenas.PrefixSums | src/sema.rs:709-716 | the running sums are the starts of the slices |
| Arenas.Scatter | src/sema.rs:717-731 | the scatter pass puts every symbol into the next slot of its parent's slice |
| Arenas.BuildChildren | src/sema.rs:696-731 | each parent's slice is its children in symbol order |
| Arenas.ChildrenExact | src/sema.rs:696-731 | the per-symbol lists contain each non-root symbol once, under its own parent |
| Arenas.ResolveRefs | src/sema.rs:863-894 | the single merge pass gives each owner exactly its pending references, in order, and consumes all of them |
| Arenas.OwnSlice | src/sema.rs:863-894 | an owner's slice holds its references and no others |
| PrunedSet.TargetsSurvive | src/prune.rs:245-271 | everything a surviving field or method refers to survives |
| PrunedSet.KeptUpwards | src/prune.rs:340-362 | the ancestors of a survivor survive |
| PrunedSet.SubtreeKeptExact | src/prune.rs:237-240 | the recursion finds a survivor exactly when some descendant-or-self survives |
| PrunedSet.HasKeptDefs | src/prune.rs:69-75 | a file has kept definitions exactly when some symbol of it survives |
| PrunedSet.NeededProviders | src/prune.rs:245-271 | the providers a file needs are exactly those of references from its survivors into other files or well-known files |
| Bridges.Fixpoint.PushDemand | src/prune.rs:174-194 | demand reaches a bridge file at most once per provider |
| Bridges.Fixpoint.Propagate | src/prune.rs:196-234 | the worklist over growing flow sets ends, on cyclic import graphs too |
| Bridges.RequiredFiles | src/prune.rs:166-235 | a file is required exactly when it keeps definitions or lies on a public chain from a direct import of such a file to a provider that file needs |
| PrunedSet.SurvivingImportsKnown | src/prune.rs:274-300 | no surviving import names a dropped file |
| PrunedSet.VisibilitySurvives | src/prune.rs:274-300 | every needed provider survives and is still visible through surviving imports |
| PrunedSet.Prune | src/prune.rs:68-134 | a file is dropped exactly if no symbol of it survives and it lies on no public chain from a direct import of a definition-keeping file to a provider that file needs; the lines left of a file are exactly those of use, in source order with repetitions |
| PrunedSet.RequiredIsUsed | src/prune.rs:166-235 | the files the fixpoint requires are those with a survivor and those on the way from an importing file to a file a survivor of it refers to |
| PrunedSet.SurvivesIfOfUse | src/prune.rs:274-300 | a public line stays with its file, a plain or weak one with a file that provides something a survivor refers to, a well-known one if it is public or referred to |
| PrunedSet.PruningPreservesMeaning | src/prune.rs:68-134 | after a successful selection every surviving reference resolves to the same definition and its provider is visible, unless a surviving package path runs through a dropped leaf |
| Pruner.Pruner.DeleteMeta | src/prune.rs:325-338 | a node is deleted from its first leading to its last trailing comment, and its detached comments one by one |
| Pruner.Pruner.VisitOneof | src/prune.rs:364-395 | a oneof goes whole if and only if it has fields and none survives; its lost numbers are pushed either way |
| Pruner.Pruner.VisitMessage | src/prune.rs:340-360 | edits of a message in order, with the scratch stack handed back as it was |
| Pruner.Pruner.VisitEnum | src/prune.rs:397-450 | the edits of an enum in order: lost values, the `allow_alias` switch, and the compacted numbers, with the scratch stack handed back |
| GrammarRoundTrip.SwitchSpelling | src/prune.rs:510-529 | the switch is recognised exactly when it is written `option allow_alias = true;` |
| Pruner.Pruner.CompactReserved | src/prune.rs:425-448 | sorting and in-place compaction behind a write mark give the list without repetitions and without live numbers |
| Pruner.Pruner.KeptValuesAlias | src/prune.rs:468-483 | true exactly when two surviving values share a number |
| Pruner.Pruner.VisitService | src/prune.rs:452-464 | dropped methods are deleted, a dropped service goes whole |
| Pruner.Pruner.InsertReserved | src/prune.rs:486-507 | the numbers above the base become one sorted statement before the brace and leave the stack; `InsertedText.ReservesTheNumbers` says which numbers its characters name |
| InsertedText.ReservesTheNumbers | src/prune.rs:486-507 | the characters of the inserted text, cut into words, integers and signs, are a `reserved` statement with one range for each number, in their order, each with its value |
| Pruner.AllLost | src/prune.rs:364-386 | the two counters agree exactly when every field is lost |
| Pruner.PruneFile | src/prune.rs:104-131 | the text of a kept file is the source with the visitor's edits applied |
| PrunedText.NumbersConserved | src/prune.rs:340-360 | the numbers of surviving fields and the reserved ones together are the numbers of all direct fields, as multisets |
| PrunedText.StayingOneof | src/prune.rs:376-394 | a oneof that stays still has a field, unless it never had one |
| PrunedText.EnumReservesExact | src/prune.rs:425-448 | an enum's reserved list is strictly increasing and is exactly the deleted numbers that no survivor uses |
| PrunedText.EnumStaysLegal | src/select.rs:265-313 | after a successful selection a surviving enum is non-empty, starts with zero and reserves no number it still uses |
| PrunedText.MessageCovers | src/prune.rs:325-360 | the deletions of a message cover exactly the tokens of its nodes that do not survive, at any depth, and those that the leading comments of its deleted nodes reach back over |
| PrunedText.EnumCovers | src/prune.rs:397-424 | the same for enums; `allow_alias = true` goes exactly when a value was deleted and no two survivors share a number |
| PrunedText.DeletionCovers | src/prune.rs:325-338 | a character of a token disappears if and only if its token belongs to a node that does not survive or the leading comments of a deleted node reach back over it |
| PrunedText.DeletionIsExact | src/prune.rs:104-131 | deleting is exact if and only if no deleted node with its leading comments starts before the end of an earlier token that stays |
| DeletedComments.DeletedExactly | src/prune.rs:325-338 | a character of the file is deleted if and only if it lies between the start of a part and the end of a part of a deleted node, its leading and trailing comments being parts, or in one of its detached comments |
| DeletedComments.CommentsGo | src/prune.rs:325-338 | every comment that is attached to a deleted node is deleted with it |
| Placement.ParsedFits | src/parse.rs:202-366 | every tree that was parsed from a text stands in it as the results on its edits require: nodes in order and nested, trailing comments before the next token, detached comments off all tokens |
| Placement.SitesMirror | src/parse.rs:202-264 | the places found for the nodes have as many comments in every slot as the attached tree |
| Overrun.ClearIsExact | src/parse.rs:220-248 | if every leading comment stands between its node and the token before, every selection is deleted exactly |
| Overrun.TidyIsExact | src/parse.rs:220-264 | so it is in every source whose comments stand between items and that has no empty statements |
| OverrunExample.ExampleIsParsed | src/parse.rs:220-248 | a comment before the brace of a message leads its first field |
| OverrunExample.BraceIsDeleted | src/prune.rs:325-338 | if that field is dropped and the next one kept, the opening brace of the message is deleted |
| PrunedText.ReservedAtBrace | src/prune.rs:486-507 | each surviving scope with lost numbers has its statement directly before its own closing brace, which belongs to no deleted node and stays if no deletion reaches back over a token that stays |
| PrunedText.NothingElseInserted | src/prune.rs:486-507 | nothing is inserted anywhere else |
| PrunedText.EditsFit | src/prune.rs:531-562 | all edits lie inside the source |
| PrunedText.EditsCommute | src/prune.rs:531-539 | the pruned text does not depend on the order in which edits were pushed |
| Edits.SortIsInOrder | src/prune.rs:532-535 | edits are applied by position, deletions before insertions |
| Edits.SortKeepsTexts | src/prune.rs:532-535 | the sort is stable for insertions at one position |
| Edits.StepDelete | src/prune.rs:540-551 | a deletion copies up to its start and moves the cursor, overlapping deletions only forward |
| Edits.StepInsert | src/prune.rs:552-559 | an insertion inside deleted text is still written |
| Edits.ApplyEdits | src/prune.rs:531-562 | for any valid edits, the cursor loop yields the characters no deletion covers with every text before its position |
| Edits.OrderIrrelevant | src/prune.rs:531-562 | with at most one insertion per position any permutation of the edits gives the same text |
| Attachment.Parser.TakePending | src/parse.rs:202-209 | exactly the unattached comments before the current token |
| Attachment.Parser.Begin | src/parse.rs:220-248 | the split between previous node and leading comments, and the blank-line flag |
| FormatStable.LeadingIs | src/parse.rs:220-248 | the leading comments are the longest run without a blank line that touches the item, the rest goes to the previous node, and the blank line in front of the run is the item's |
| Attachment.Parser.FindBoundary | src/parse.rs:232-236 | the backward search finds the start of the last run of comments without a blank line |
| Attachment.Parser.FinishTrailing | src/parse.rs:252-264 | the pending comments that start on the line on which the item ended |
| Attachment.Parser.BlockItems | src/parse.rs:315-366 | the scope loop with its patching of the previous item computes the recursive scope parse |
| Attachment.Parser.ItemParts | src/parse.rs:346-352 | an item with its nested scopes, given where items end |
| Comments.ParseKeepsRun | src/parse.rs:202-264 | the slots filled while a scope is parsed, in tree order, are the next comments of the stream |
| Comments.WrittenRun | src/format.rs:148-204 | the printer writes each comment of a scope once, in tree order; what goes on one line has none |
| Formatting.CommentsConserved | src/parse.rs:202-264 | the slots of a parsed file partition its comment stream in source order |
| Formatting.CommentsWrittenOnce | src/format.rs:44-60 | the formatted text has every comment of the source once, in source order |
| Formatting.FormattedLinesClosed | src/format.rs:193-204 | no line comment in the formatted text is followed by anything on its line |
| LayoutRoundTrip.BeginAgain | src/parse.rs:220-248 | at every boundary the second parse splits the printed comments as predicted from the tree |
| LayoutRoundTrip.ReparseRun | src/format.rs:148-187 | for every tree, attaching the printed form again gives the settled tree |
| FormatStable.SettleKeepsRun | src/format.rs:148-187 | the settled tree has the same comments in the same order |
| FormatStable.ResplitSettled | src/format.rs:160-180 | its boundaries ask for the same blank lines |
| FormatStable.SamePrintRun | src/format.rs:148-187 | the settled tree prints as the same text |
| Formatting.FormatParses | src/format.rs:44-60 | in the layout model, where words are atomic, the formatted form of every file that parses, parses |
| Formatting.FormatIdempotent | src/format.rs:3-8 | in the layout model formatting a formatted file changes nothing |
| Formatting.SidesKept | src/format.rs:160-180 | the comments between two items stay on their sides if and only if a blank line separates them |
| Formatting.SlotsKept | src/format.rs:7-8 | every comment keeps its slot through formatting if and only if detached comments are followed by a blank line or a top-level separation |
| Stability.TidyIsStable | src/parse.rs:220-264 | files whose comments stand between items, without empty statements, meet that condition |
| Stability.TidyKeepsSlots | src/format.rs:7-8 | so in such files every comment keeps its slot |
| Stability.UntidyParses | src/parse.rs:323-326 | an empty statement takes the blank line away from the next item |
| Stability.EmptyStatementMovesComment | src/format.rs:7-8 | and then formatting moves the comment above it into another slot |
| Printing.Printer.Blank | src/format.rs:105-110 | at most one blank line, none at the start |
| Printing.Printer.AppendTrailing | src/format.rs:193-204 | the closed line is reopened by taking back its line break |
| Printing.Printer.WriteItems | src/format.rs:148-187 | the loop over a scope writes the recursive layout |
| Printing.Printer.WriteParts | src/format.rs:383-435 | words, nested blocks and line breaks of one item |
| Printing.FormatFile | src/format.rs:44-60 | the whole formatter on a fresh buffer writes the pieces of `Layout.Format`, which `BlankLines.FormatLines` describes line by line |
| BlankLines.FormatLines | src/format.rs:44-60 | the formatted file is its lines: each comment on its own line, each item with its trailing comments, and an empty line in front exactly where the words of the two items, the blank flag or a definition ask for it |
| BlankLines.ScopeLines | src/format.rs:148-187 | so is every scope, with empty lines by the blank flags alone when it is nested |
| BlankLines.FileGap | src/format.rs:127-140 | between two top-level items without comments between them there is an empty line if and only if the second has its flag, is a definition, or their first words differ in kind |
| BlankLines.GapBetween | src/format.rs:142-170 | in nested scopes if and only if the flag is set |
| BlankLines.NestedLines | src/format.rs:383-435 | a body with content, and a value with comments to write, goes over several lines |
| BlankLines.NestedOnOneLine | src/format.rs:383-435 | every other nested scope stands on one line, without comments |
| TextRoundTrip.BracketBack | src/parse.rs:1153-1172 | a bracket name without two slashes in a row reads back as itself |
| TextRoundTrip.NameReadable | src/parse.rs:1153-1172 | a name that was parsed can be printed and read again if and only if it has no two slashes in a row |
| TextRoundTrip.PathBack | src/parse.rs:522-541 | paths read back |
| TextRoundTrip.NameBack | src/parse.rs:544-572 | option names with extension parts read back |
| TextRoundTrip.StringsBack | src/parse.rs:618-634 | adjacent string literals read back as the same list |
| TextRoundTrip.FieldsBack | src/parse.rs:1123-1149 | the fields of an aggregate read back, with or without separators |
| TextRoundTrip.ValBack | src/parse.rs:1196-1251 | values read back at any nesting of messages, lists and strings |
| TextRoundTrip.ValsBack | src/parse.rs:1225-1247 | lists read back |
| TextRoundTrip.ConstBack | src/parse.rs:574-614 | constants read back |
| TextRoundTrip.StylesAgree | src/format.rs:497-542 | the multi-line and the one-line printer of an aggregate are read as the same value |
| TextRoundTrip.ValLegal | src/parse.rs:1196-1251 | parsed values are legal: no nested list, no empty string list, signs only before numbers, `inf` and `nan` |
| Cursors.Reader.ReadFields | src/parse.rs:1123-1149 | the cursor loop over an aggregate computes the recursive parse |
| Cursors.Reader.ReadField | src/parse.rs:1151-1194 | one field with its optional colon and separator |
| Cursors.Reader.ReadVal | src/parse.rs:1196-1251 | the cursor form of one value; `Spelling.ValExactly` says which tokens are read as which value |
| Spelling.FieldsExactly | src/parse.rs:1123-1194 | tokens are read as these fields if and only if they spell them by the rules: stray `;`, an optional colon before a message or list, `,` or `;` behind a field, and the closing bracket of the opening one |
| Spelling.ValExactly | src/parse.rs:1196-1251 | and as this value if and only if they spell it: strings, signed numbers, words, lists that do not nest, and messages in braces or in angle brackets |
| Spelling.BracketsAgree | src/parse.rs:1123-1127 | the two brackets, with or without a colon, are read as the same message |
| Spelling.MannersAgree | src/parse.rs:1123-1251 | in whatever manner an aggregate is written, with angle brackets or braces at any nesting and with any separators, it is read back as the same value |
| Spelling.FieldMannersAgree | src/parse.rs:1151-1194 | so is every field |
| FileSpelling.StmtsExactly | src/parse.rs:415-1121 | tokens are read as these statements of a scope if and only if they spell them by the rules of the grammar |
| FileSpelling.FileExactly | src/parse.rs:368-414 | a file parses to a tree if and only if its tokens spell it and the file rules hold |
| Numerals.DecimalLiteral | src/parse.rs:1264-1271 | decimal digits have their value, up to 64 bits |
| Numerals.OctalLiteral | src/parse.rs:1264-1271 | so have octal ones behind a zero |
| Numerals.HexLiteral | src/parse.rs:1264-1271 | and hexadecimal ones behind `0x` or `0X` |
| Numerals.SignedLiteral | src/parse.rs:645-662 | with a sign the value must fit into 63 bits and the sign |
| Numerals.NumberLimits | src/parse.rs:764-772 | field numbers have 29 bits, values of enums 32 bits and a sign, and what a scope reserves is of its own kind |
| Cursors.Reader.ReadVals | src/parse.rs:1225-1247 | the list loop, which refuses nested lists |
| Cursors.Reader.ReadPath | src/parse.rs:522-541 | the segment loop |
| Cursors.Reader.ReadStrings | src/parse.rs:618-634 | the string loop |
| Cursors.Reader.ReadBracket | src/parse.rs:1153-1172 | the loop that glues a bracket name |
| Cursors.Writer.PushFields | src/format.rs:640-663 | the renderer appends the fields and the closing brace, whatever follows |
| Cursors.Writer.PushVal | src/format.rs:665-681 | the renderer of one value |
| GrammarRoundTrip.TypeBack | src/parse.rs:797-845 | field types read back, also a message type named `map` |
| GrammarRoundTrip.FieldBack | src/parse.rs:712-786 | fields with label, options and number read back |
| GrammarRoundTrip.RangesBack | src/parse.rs:1044-1088 | reserved ranges read back, with signs and `max` |
| GrammarRoundTrip.HeadBack | src/parse.rs:972-991 | rpc headers read back; `stream` is a modifier only before a type |
| GrammarRoundTrip.ValueBack | src/parse.rs:925-950 | enum values read back |
| GrammarRoundTrip.StmtBack | src/parse.rs:415-441 | every legal statement reads back in its scope, whatever follows it |
| GrammarRoundTrip.StmtsBack | src/parse.rs:315-366 | the statements of a scope read back |
| GrammarRoundTrip.StmtLegal | src/parse.rs:678-710 | what a scope accepts is legal in it |
| GrammarRoundTrip.StmtsLegal | src/parse.rs:315-366 | everything that parses is legal, empty statements skipped |
| GrammarRoundTrip.FileReadsBack | src/format.rs:5-6 | printing any parsed file and parsing it again gives the same tree, if its bracket names can be read |
| NameOrigins.StmtsMet | src/parse.rs:1153-1172 | every bracket name in a parsed scope was read in brackets from its tokens |
| BracketNames.TwoSlashesAreGlued | src/parse.rs:1153-1172 | `[a/ /b]` is accepted as the name `a//b`, which cannot be cut into tokens again |
| BracketNames.StmtFine | src/format.rs:640-681 | no printed statement has two slash tokens in a row |
| BracketNames.FileReadsBackExactly | src/format.rs:5-6 | whatever the lexer makes of a printed file, it parses to the same tree if and only if no bracket name in it has two slashes in a row |
| Locality.StmtLocal | src/parse.rs:415-441 | a statement is parsed the same, whatever follows it |
| PrunedTree.CutFileParses | src/prune.rs:136-155 | with any statements cut out at any depth and any legal `reserved` statements added before closing braces, the tokens of a file parse to the tree changed likewise |
| PrunedParse.MessageFits | src/prune.rs:340-395 | what the visitor deletes of a message and the numbers it reserves are such a change |
| PrunedParse.EnumFits | src/prune.rs:397-450 | the same for enums |
| PrunedParse.PrunedFileParses | src/prune.rs:136-155 | the tokens of the statements the visitor leaves, with its `reserved` statements, parse to the pruned tree |
| PrunedParse.PrunedFileIsLegal | src/prune.rs:136-155 | and that tree is legal |
| Weaving.FileWoven | src/prune.rs:531-562 | what the cuts leave of a file is a row for every token, one behind the other |
| Knots.RowIs | src/prune.rs:531-562 | the row of a token is empty if a node it belongs to goes; otherwise it is the token, behind the `reserved` statement of the scope whose brace it is |
| PrunedTokens.TextIsCut | src/prune.rs:104-131 | the tokens that the edits leave in the text, with those of the inserted characters, are those that the cuts leave |
| PrunedTokens.PrunedTextParses | src/prune.rs:104-131 | so what is left in the text of a pruned file parses to the pruned tree, if no deletion reaches back over a token that stays |
| PrunedShape.FileShape | src/prune.rs:340-464 | the pruned tree has in every scope the members that survive, in their order, and behind them the numbers of those that do not |
| PrunedShape.PrunedTextIs | src/prune.rs:68-134 | so the text of a pruned file parses to exactly that: at any depth the surviving statements as they were, one `reserved` statement per scope with just the numbers of its lost fields or values, no `allow_alias` that is not needed |
| GrammarRoundTrip.PrintingIsInjective | src/format.rs:5-6 | legal trees with readable bracket names that are printed as the same tokens are equal |
| Swar.FirstFlagExact | src/lex.rs:379-381 | the trailing-zero count names the first flagged lane |
| Swar.LowestBit | src/lex.rs:379-381 | the trailing-zero count is the index of the lowest bit that is set |
| Swar.ScanIdent | src/lex.rs:384-407 | stops where the byte-at-a-time identifier loop stops |
| Swar.ScanWs | src/lex.rs:409-440 | stops where the scalar loop stops and adds exactly the newlines skipped |
| Swar.ScanToNewline | src/lex.rs:442-457 | stops at the first newline or the end |
| Swar.ScanStrBody | src/lex.rs:459-473 | stops at the first quote, backslash or newline |
| Swar.StopUnique | src/lex.rs:384-473 | a stop index is unique, so each scanner equals its scalar loop |
| Manifest.ManifestRoundTrip | src/fs.rs:314-347 | reading back a written manifest gives the same paths |
| Manifest.ReadsExactly | src/fs.rs:314-347 | a text is read as a manifest exactly if it is the header line and lines that are empty or valid paths, with either line break |
| Manifest.SortKeepsPaths | src/fs.rs:260-312 | sorting the manifest neither loses nor adds a path |
| Manifest.OrderForgotten | src/fs.rs:260-312 | the manifest does not depend on the order in which files were given |
| Manifest.StaysInside | src/fs.rs:78-101 | a valid import path, walked from the output directory, never leaves it, names something in it, and is the one spelling of the place it leads to |
| Manifest.OneSpelling | src/fs.rs:78-101 | two valid paths that lead to the same place are equal |
| Manifest.MissesBookkeeping | src/fs.rs:96-99 | no valid path leads to the manifest or the lock |
| Sync.StepIsSafe | src/fs.rs:222-312 | no single action breaks the safety invariant |
| Sync.SyncIsSafe | src/fs.rs:222-312 | over all runs and crashes no step removes a path that no earlier sync wrote and recorded |
| Sync.StepIsSane | src/fs.rs:235-262 | no step makes a path a file and a directory, or puts a file below a file |
| Convergence.RefusedAtOnce | src/fs.rs:222-240 | with an invalid path or an unreadable manifest a run ends before it touches anything |
| Convergence.LockedOut | src/fs.rs:229-231 | while the lock is there, no run begins |
| Convergence.WriteSucceeds | src/fs.rs:235-257 | a write succeeds exactly if its path is no directory, before the run or because of earlier files, and is not below a file that is there or was written |
| Convergence.SyncReachesTarget | src/fs.rs:222-312 | a run that is left alone gets through exactly when no path it writes or removes clashes with the directory tree; then it leaves exactly the target state, and otherwise it returns an error with the manifest unchanged |
| Convergence.NewBelowOld | src/fs.rs:235-246 | a new file below a file of the last generation clashes, because removals come after writes |
| Convergence.StaleBecomesDirectory | src/fs.rs:265-298 | if that old file is already gone, the removal phase meets the new directory instead |
| Convergence.CrashConvergence | src/fs.rs:222-312 | after any number of crashes and failures at any steps, and whatever other programs do elsewhere in the directory meanwhile, once the stale lock is cleared a run with the same files reaches the state an uninterrupted one would have reached after those changes |
| Convergence.TargetMirrors | src/fs.rs:222-312 | the target has every file with its text, no stale owned path, and all foreign files untouched |
| Convergence.LastWriteWins | src/fs.rs:235-260 | a path given twice holds the later text |

## Left out

- The command line, reports, usage text, error messages, spans and carets: only success, failure and, where a theorem needs it, the kind of failure.
- The rules language and its glob matcher: whether a rule matches a symbol is a given boolean matrix. The hints in the error for a rule that matches nothing are not modelled.
- Symbol collection from declarations (`src/sema.rs:518-695`): the symbol table is given with the facts collection establishes (`Symbols.WellFormed`, `Resolution.Collected`).
- The check of a reference's kind and visibility error reports (`src/sema.rs:898-968`): resolution and visible sets are modelled, their diagnostics are not.
- Scalar lexing of strings, escapes and numbers, the keyword table and proto2 diagnostics: tokens are given; integer literals are read as in `parse_int`.
- Digest text: trees of module Syntax hold the words that the digest renders, so equal trees have equal digests; the rendering is not modelled.
- The nesting limit of 256 braced scopes: the parsers here have no limit.
- Identifiers, arenas and ranges as 32-bit indices: indices are unbounded, and slots hold comments instead of index ranges into the stream.
- Real file-system behaviour: symbolic links, canonical paths, temporary names, permissions, directory discovery. A write is one atomic update of the files and the directories above the path.
- Layout: indentation, spaces inside a line and the wording of statements are not modelled there; where an item ends and which words it prints is given, and the grammar files treat the words. The two models are not joined into one theorem about characters.
- Statement parsers (`src/parse.rs:415-1121`) are functions on token sequences, not methods on a cursor; the text-format parser and the scope loop are given in both forms. The functions do not show that parsing works in place.
- Pruner.PruneFile: takes whether a node survives and whether an import line survives as given; `PrunedSet.Prune` computes the latter from the selection, and `PrunedText.Mirrors` relates enum nodes to symbols.
- Convergence.CrashConvergence: assumes that the contents to be written do not change between the runs, and that other programs leave alone these paths and what is above or below them.
- LayoutRoundTrip.ReparseRun: reads printed pieces, in which a line comment ends its line; `Formatting.FormattedLinesClosed` proves that the printer never breaks this.
- Formatting.FormatParses: words are atomic in the layout model, so a bracket name that no longer lexes is not seen there; `BracketNames.FileReadsBackExactly` is about it.
- Formatting.FormatIdempotent: the same restriction to the layout model.
- Attachment.Parser.ItemParts: where an item ends is a flag on its last token and not the grammar's decision.
- PrunedShape.PrunedTextIs: speaks of the tokens of the source whose characters are left and of those in the inserted characters; a lexer that finds these tokens in the characters is not modelled. That every node of the visitor's tree mirrors a statement and is made of its tokens is a premise (`PrunedParse.MirrorsTop`, `PrunedTokens.MadeOf`), as is an exact deletion, by `OverrunExample.BraceIsDeleted` not always given.
- PrunedTokens.PrunedTextParses: the same premises.
