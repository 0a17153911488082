# A verified model of the runtime's core algorithms

The runtime executes procs by ownership instead of copying, answers lists and
aggregates by splitting work between a store and itself, keeps an in-memory
store with referential actions, passes values between tasks over channels, and
collapses and races writes against a remote store. Each of these must agree with
something simpler. This project models both sides and proves that they do.

| file | what it models |
|---|---|
| ProcSyntax, ValueMachine, MoveAnalysis, OwnershipMachine | proc bodies, the language's copy-on-bind meaning, the textual move analysis, and the engine with its shared heap, slot and field ownership bits |
| Ownership to Refinement, EngineRuns | the ownership discipline and the proof that the engine refines the language |
| MoveCompiler, MoveCompilation | the compiler's tables and how they decide moves |
| Invocation | the engine over arrays, a heap updated in place and loops |
| LanguageLaws, InPlaceWrites | laws of the language itself; the writes that copy nothing |
| BorrowAliasing | the program outside the theorem, and exactly when a doubled argument aliases |
| OperatorPaths, OperatorsAgree, OperatorLaws | compiled operators against the generic ones, those of procs against those of predicates, and what they compute |
| RuneSearch | rune-indexed search and slicing over UTF-8 (section 3 of RFC 3629) |
| CascadeDelete | delete and clear over a typed reference graph |
| Expressions, LiteralTyping, PredicateSplit, Paging, Batching, EarlyStop, StableSort | predicates, retyped literals, the split, keyset paging, grouped aggregates, early stop |
| Channels, ChannelMonitor | channels as interleaved atomic steps, and as objects |
| FqTransaction, CronReservation | the transaction buffer; the reservation race |
| SeedOrder | the seeding order |
| Options, Sequences, Division, TextOrder, TextNumbers | shared pieces |

Where a property is false of the code, the code is kept, a lemma names an input,
and the condition under which it holds is what the main theorem requires:

- A call that lends a local to a borrowing parameter and moves it in a later
  argument aliases (`BorrowAliasing.EngineDeparts`). `BorrowAliasing.PassedTwice`
  and `FieldPassed` say exactly when, for any argument list, the local whole and a
  field of it. `Refinement.CallsSafe` asks only that no argument moves a local, or
  a field of one, that an earlier argument of the same call lent; arguments need
  not be distinct locals.
- Folding a nil into a predicate can lose a row (`PredicateSplit.NilFoldLosesRow`).
  A value folds to itself exactly when `LitExact` says so, and a nil that does not
  compares as the empty text it folds to exactly when `NilKeptExact` says so: beside
  any text, and beside a number that is not 0.
- Retyping a literal to its column can change a comparison
  (`MoneyOrderLosesRow`). For equality `LiteralTyping.EqualityKeptExact` is the
  condition on a stored value and a literal, `ColumnKept` the one on the literal
  alone; for order `OrderKeptExact`. `PredicateSplit.Splittable` asks it of the
  stored rows and only of the conjuncts that are pushed.
- A read rule's aggregate that reads the rule's row and binds the query's is
  captured (`CaptureChangesRule`); `NoCapture` is the condition.
- The restrict walk keeps no visited set. It ends if and only if no walk of
  cascade references from the deleted ids runs into a ring, or it comes to a
  refusal before any (`CascadeDelete.EndsExactly`); `RefusedBeforeRing` is a store
  with both. `CheckRestrict`, `Delete` and `Clear` ask for no more.
- Deleting id 0 takes rows whose reference is unset
  (`CascadeDelete.ZeroIdTakesUnset`); `PositiveIds` is the other case.
- A grouped read puts a null in no number's group, though a null equals 0
  (`Batching.NullIsNotGrouped`). `LiteralTyping.ByTextExact` says exactly which
  stored values and literals a group key tells apart as equality does: nulls
  against any id but 0 among them.
- Ticks of a cron job are an interval apart only up to the delay between the clock
  the deadline is computed from and the one the reservation compares
  (`CronReservation.Spaced`, `DelayShortens`).

The code and its comments differ in one place that matters here: the in-memory
store's default page is 50 rows (`runtime/memstore.go:257-260`), while the shared
constant beside the query type says 100 (`runtime/pushdown.go:110`). The code is
followed.

## Model

| member | source | states |
|---|---|---|
| `Refinement.RunRefines` | runtime/proccompile.go:26-44 | running any well-formed program on any values gives the value, or the failure, that copy on bind gives, in as many steps, and leaves every value the caller already had as it was |
| `EngineRuns.RunProgram` | runtime/proccompile.go:523-560 | the same of the engine in its own form: arrays written in place, loops as loops |
| `LanguageLaws.WritesOnlyTargets` | runtime/proccompile.go:26-44 | the language itself: a statement, whatever it runs and calls, changes no slot but those it assigns |
| `LanguageLaws.LocalReads` | runtime/proccompile.go:26-44 | binding a local copies its value; a return ends the body with it |
| `LanguageLaws.IntReads` | runtime/proccompile.go:2209-2230 | an int assigned is read back, its operator applied to the left and the right operand |
| `LanguageLaws.LiteralReads` | runtime/proccompile.go:1828-1849 | a list literal reads as its elements, evaluated in order |
| `LanguageLaws.AppendReads` | runtime/proccompile.go:1009-1051 | an append reads as the list with the value after it |
| `LanguageLaws.IndexSetReads` | runtime/proccompile.go:1065-1112 | an index write is read back, every other index reads as before, and outside the list it fails |
| `LanguageLaws.FieldSetReads` | runtime/proccompile.go:1293-1338 | a field write is read back and no other field changes |
| `LanguageLaws.FieldAppendReads` | runtime/proccompile.go:1247-1291 | the same of an append to a field |
| `LanguageLaws.NestedSetReads` | runtime/proccompile.go:841-873 | the same of a write to an element of a field |
| `LanguageLaws.StructLitReads` | runtime/proccompile.go:590-625 | a struct literal reads as its arguments, field by field |
| `LanguageLaws.Branches` | runtime/proccompile.go:1510-1532 | the branch whose condition holds runs, and only it |
| `LanguageLaws.LoopUnfolds` | runtime/proccompile.go:1484-1509 | a loop runs its body and then itself while its condition holds; a continue starts it over, a break ends it where it stands |
| `LanguageLaws.CallReturns` | runtime/proccompile.go:507-560 | a call returns what its body returns, over parameters bound to the arguments in order and every other slot empty |
| `InPlaceWrites.AppendInPlace` | runtime/proccompile.go:1009-1051 | an append to a list its slot owns makes no new cell; to one it does not own, exactly one, owned from then on |
| `InPlaceWrites.IndexSetInPlace` | runtime/proccompile.go:1071-1110 | the same of an index write |
| `InPlaceWrites.FieldSetInPlace` | runtime/proccompile.go:1308-1338 | the same of a field write |
| `InPlaceWrites.FieldAppendInPlace` | runtime/proccompile.go:1254-1290 | an append to a field its struct owns makes no new cell |
| `InPlaceWrites.MovedIsOwned` | runtime/proccompile.go:301-311 | a moved local hands its value over with its ownership and makes no cell |
| `Refinement.ExecRefines` | runtime/proccompile.go:809-1339 | every statement, in every disciplined state, transfers control as the language does, yields the same values, keeps the ownership discipline and changes nothing held outside the frame |
| `Refinement.LoopRefines` | runtime/proccompile.go:1484-1509 | a loop, over all its iterations: what moved in one iteration is not read in the next |
| `Refinement.IfRefines` | runtime/proccompile.go:1510-1532 | both branches leave what the statement after them needs |
| `Refinement.CallRefines` | runtime/proccompile.go:507-530 | a call across frames: the callee gives the language's result and leaves every cell of the caller it may not write unchanged |
| `Refinement.RhsRefines` | runtime/proccompile.go:330-382 | the value a statement binds, fresh, shared, moved or handed back by a call, arrives with ownership only if nobody else holds it |
| `CallRefinement.EntryOk` | runtime/proccompile.go:82-89 | a callee's frame starts disciplined: an owned parameter is held by no other parameter, no caller frame and no field |
| `CallRefinement.EscapingFree` | runtime/proccompile.go:441-446 | a parameter the borrow inference lets escape was given nothing the caller still owns |
| `CallRefinement.ReturnOk` | runtime/proccompile.go:1455-1479 | back in the caller its slots see the heap as before and the returned value is referenced from nowhere else if it comes owned |
| `ArgumentRefinement.ArgsRefine` | runtime/proccompile.go:385-402 | a whole argument list, left to right, with slots emptied and fields given up on the way, has the language's values, and each value handed over with ownership is held by nothing else |
| `ArgumentRefinement.LocalMoveDead` | runtime/proccompile.go:206-215 | a local emptied by a move is not read again before it is rebound: not later in the text, nor when an enclosing loop starts over |
| `ArgumentRefinement.FieldMoveDead` | runtime/proccompile.go:216-229 | a field handed over is not read again, by its own path or through the whole struct, nor when an enclosing loop starts over |
| `FieldRefinement.NestedSetRefines` | runtime/proccompile.go:841-873 | `x.f[i] = v` through its temporary writes the field in place when it is the struct's own, copies otherwise, and both give the language's value |
| `FieldRefinement.FieldAppendRefines` | runtime/proccompile.go:1247-1291 | `x.f = append(x.f, e)` grows the field's list in place only when nobody else can see it |
| `StatementRefinement.FieldSetRefines` | runtime/proccompile.go:1293-1338 | a field write stores the value and records exactly whether the struct owns it |
| `StatementRefinement.IndexSetRefines` | runtime/proccompile.go:1065-1112 | an index write touches only the list its slot owns, or a copy made for it; both machines refuse the same writes |
| `StatementRefinement.AppendSelfRefines` | runtime/proccompile.go:1009-1051 | `xs = append(xs, e)` in place equals append on a copy; the shared empty list is never written |
| `ValueRefinement.StructLitRefines` | runtime/proccompile.go:590-625 | a struct literal owns exactly the fields handed over to it |
| `ValueRefinement.AppendRefines` | runtime/proccompile.go:343-362 | append to a list dead afterwards grows it in place and hands it over |
| `ValueRefinement.ReturnRefines` | runtime/proccompile.go:1455-1479 | a returned local or field goes to the caller with its ownership |
| `WriteRefinement.CloneFlight` | runtime/proccompile.go:576-584 | the copy made before a write to a shared value is held by nobody else and owns none of the fields it shares |
| `Simulation.EvalIntSame` | runtime/proccompile.go:2787-2833 | an int expression over composites reads the same from shared cells as from copies |
| `BorrowAliasing.EngineDeparts` | runtime/proccompile.go:301-311 | outside the condition on calls the engine and the language differ: `f(x, x)` where the callee writes one parameter and reads the other gives 9 instead of 1 |
| `BorrowAliasing.PassedTwice` | runtime/proccompile.go:286-312 | for any argument list, a local named again comes owned if and only if its slot owns it, that argument moves it and every earlier argument naming it lent it; the callee then sees it through each of those |
| `BorrowAliasing.FieldPassed` | runtime/proccompile.go:649-700 | the same of a field of a lent local: owned if and only if, besides, the struct owns the field and no earlier argument took it |
| `MoveCompiler.Compiler.Declare` | runtime/proccompile.go:236-245 | the tables of last, whole and declaring occurrences stay those of the text so far |
| `MoveCompiler.Compiler.Lookup` | runtime/proccompile.go:249-261 | the same for a name resolved |
| `MoveCompiler.Compiler.MoveArg` | runtime/proccompile.go:286-312 | a bare local argument becomes a candidate, a self candidate when the statement assigns it |
| `MoveCompiler.Compiler.TakePath` | runtime/proccompile.go:649-658 | a field path argument becomes a field candidate and a recorded path read |
| `MoveCompiler.Compiler.SelfMoves` | runtime/proccompile.go:194-204 | each self candidate of the statement moves exactly when nothing after it so far reads its local; the others wait |
| `MoveCompiler.Compiler.DecideMoves` | runtime/proccompile.go:206-230 | every candidate left is decided as the analysis decides it |
| `MoveCompilation.CompileStmt` | runtime/proccompile.go:809-1532 | compiling a statement records its occurrences in textual order, its loops' ranges and its self moves' verdicts |
| `MoveCompilation.CompileProc` | runtime/proccompile.go:436-450 | after a whole body, the verdict at every candidate is the analysis's, for every body |
| `MoveCompiler.LastPosTells` | runtime/proccompile.go:112-118 | the last-occurrence table answers whether anything later reads the local |
| `Invocation.Pfr.constructor` | runtime/proccompile.go:544-560 | a fresh frame: arguments in their parameters, owned where handed over owned |
| `Invocation.Pfr.Set` | runtime/proccompile.go:571-574 | a slot and its bit are rebound and nothing else changes |
| `Invocation.Pfr.Mutable` | runtime/proccompile.go:578-584 | the slot's value is ready for an in-place write, copied one level first unless owned |
| `Invocation.Pfr.ReadLocal` | runtime/proccompile.go:301-311 | a retained read hands the value over, keeps the bit for a borrowing callee, or clears it |
| `Invocation.Pfr.TakeField` | runtime/proccompile.go:649-700 | a field is given up in its struct, or shared |
| `Invocation.Pfr.ReadArgs` | runtime/proccompile.go:385-402 | arguments evaluated in place, left to right, as the machine's function gives |
| `Invocation.Pfr.AppendTo` | runtime/proccompile.go:1009-1051 | the in-place append statement |
| `Invocation.Pfr.WriteIndex` | runtime/proccompile.go:1071-1110 | the in-place index write |
| `Invocation.Pfr.WriteField` | runtime/proccompile.go:1308-1338 | the in-place field write |
| `Invocation.Pfr.AppendField` | runtime/proccompile.go:1254-1290 | the in-place field append |
| `Invocation.Pfr.RunStmt` | runtime/proccompile.go:1489-1532 | a statement, a loop statement as a loop, leaves exactly the state of the machine it refines |
| `Invocation.Run` | runtime/proccompile.go:523-542 | a call on a frame of its own |
| `OperatorPaths.CompiledIsGeneric` | runtime/proccompile.go:3055-3157 | every compiled expression tree, whichever paths its nodes take, gives what folding the generic operators over it gives |
| `OperatorPaths.NativeIntIsGeneric` | runtime/proccompile.go:2787-2833 | native int evaluation, with division and modulo by zero, negative and wide shifts, and 64-bit wrap-around |
| `OperatorPaths.NumIsGeneric` | runtime/proccompile.go:2399-2456 | tagged-number trees over operands of unknown type, floats and boxed values included |
| `OperatorPaths.NumBinIsGeneric` | runtime/proccompile.go:2350-2397 | one tagged operation |
| `OperatorPaths.JoinedIsGeneric` | runtime/proccompile.go:3166-3207 | a text chain joined once is the chain added piece by piece |
| `OperatorPaths.AppendIsGeneric` | runtime/proccompile.go:738-752 | `x = x + e1 + …` on a text appends the parts' texts in order |
| `OperatorPaths.SetLookupIsScan` | runtime/proccompile.go:3314-3360 | membership by set is membership by scan whenever the set answers |
| `OperatorPaths.DispatchIsGeneric` | runtime/proccompile.go:3116-3157 | the int and text fast paths of one operator |
| `OperatorLaws.IntSums` | runtime/eval.go:1170-1187 | sum, difference and product are those of the ints, up to a multiple of 2 to the 64th, in the 64-bit range |
| `OperatorLaws.IntQuotients` | runtime/eval.go:1200-1215 | division truncates toward zero, the remainder has the sign of what is divided, and both are 0 by zero |
| `OperatorLaws.IntShifts` | runtime/eval.go:1300-1326 | shifts multiply and divide, downward, by a power of two; a negative count gives 0, one past the width shifts everything out |
| `OperatorLaws.IntBits` | runtime/proccompile.go:2231-2236 | the bitwise operators work bit by bit in two's complement |
| `OperatorLaws.IntOrders` | runtime/eval.go:1216-1251 | ints compare as ints |
| `OperatorLaws.Texts` | runtime/eval.go:1085-1123 | texts are joined, compared whole, and ordered by their first difference, a proper prefix first |
| `OperatorLaws.AsText` | runtime/eval.go:2408-2417 | what a bool, an int, a nil and a list are as text |
| `OperatorLaws.ArithIsApplyBin` | runtime/proccompile.go:2209-2230 | where the result fits 64 bits, an int operator of a proc is the generic one |
| `OperatorLaws.CompareIsApplyBin` | runtime/eval.go:1216-1251 | and so is every comparison |
| `OperatorLaws.ArithLaws` | runtime/proccompile.go:2209-2230 | subtraction undoes addition, a product is a repeated sum, and division with its remainder truncates toward zero |
| `OperatorLaws.CompareLaws` | runtime/eval.go:1216-1251 | less is a positive difference, and the other comparisons follow from it |
| `Division.QuotientTruncates` | runtime/eval.go:1200-1215 | what is divided is the divisor times the quotient plus the remainder, which is smaller than the divisor and has the sign of what is divided |
| `TextOrder.LessTextExact` | runtime/eval.go:1085-1123 | a text is before another exactly when it is a proper prefix of it or smaller where the two first differ |
| `OperatorsAgree.ApplyAgrees` | runtime/eval.go:1130-1326 | the operators predicates are evaluated with and those procs are answer alike on the values both have, when the ints fit 64 bits |
| `OperatorsAgree.EqualAgrees` | runtime/eval.go:2480-2556 | the same of equality, on lists within lists |
| `RuneSearch.RuneIndexOf` | runtime/eval.go:205-244 | the least rune index at or after `from` (clamped) where the pattern's runes occur, or -1, for every valid text and pattern |
| `RuneSearch.RuneSlice` | runtime/eval.go:369-395 | exactly the runes between the clamped ends, re-encoded |
| `RuneSearch.FoundSlicesBack` | runtime/eval.go:205-208 | slicing at a found index gives the pattern |
| `RuneSearch.MatchAtBoundary` | runtime/eval.go:226-243 | a byte match of a non-empty pattern starts at a rune: the encoding synchronises itself |
| `RuneSearch.ByteFindsRune` | runtime/eval.go:222-243 | the first byte match is the first rune match |
| `RuneSearch.RuneOffsets` | runtime/eval.go:135-141 | the offset of every rune and, last, the length |
| `RuneSearch.FindOffset` | runtime/eval.go:233-243 | the binary search finds the rune starting at a known offset |
| `RuneSearch.FirstOutside` | runtime/eval.go:205-244 | a start before the text is its beginning; past its end only the empty pattern is found, at the end |
| `RuneSearch.SlicedRunes` | runtime/eval.go:369-395 | a slice is the runes whose index is from the start up to the end, in order, wherever the two lie |
| `CascadeDelete.MemStore.constructor` | runtime/memstore.go:45-65 | the relation graph grouped by parent, in order |
| `CascadeDelete.MemStore.CheckRestrict` | runtime/memstore.go:93-131 | answers what the walk over the relations in order answers, with the first refusal's relation and row count; refuses if and only if a restrict relation refers to a row the delete would have to remove; the store is not touched |
| `CascadeDelete.MemStore.DeleteCascade` | runtime/memstore.go:133-171 | removes exactly the rows that reach the deleted ids through cascade or restrict relations, clears exactly the setNull references to them, keeps every other row and the order, and ends on any graph, cycles included |
| `CascadeDelete.MemStore.Delete` | runtime/memstore.go:82-91 | all of it for one id: refused with nothing changed, or exactly the reachable rows gone and no restrict row referring to any of them |
| `CascadeDelete.MemStore.Clear` | runtime/memstore.go:188-202 | the same for a whole entity, which ends empty |
| `CascadeDelete.IntactAfterDelete` | runtime/memstore.go:133-140 | no dangling reference: a store whose references all name rows stays so |
| `CascadeDelete.PositiveIds` | runtime/memstore.go:148-170 | with positive ids an unset reference is never taken for one to a removed row |
| `CascadeDelete.ZeroIdTakesUnset` | runtime/memstore.go:163-170 | without them, deleting id 0 takes rows whose reference is unset |
| `CascadeDelete.GoneClosed` | runtime/memstore.go:161-170 | whatever refers to a removed row through a relation that is not setNull was removed too |
| `CascadeDelete.HolderGoes` | runtime/memstore.go:161-170 | a row whose cascade or restrict field holds the id of a removed row is gone |
| `CascadeDelete.SurvivorHolds` | runtime/memstore.go:161-170 | a row that stays holds what it held, but for setNull fields with the id of a removed row, which hold nil |
| `CascadeDelete.OthersStay` | runtime/memstore.go:148-170 | a row not asked for whose cascade and restrict fields hold ids of rows that stay, stays |
| `CascadeDelete.EndsExactly` | runtime/memstore.go:105-131 | the restrict walk ends if and only if no walk of cascade references from the deleted ids runs into a ring, or a refusal comes first: the relations before it lead to no ring, at every level down to it |
| `CascadeDelete.RefusedBeforeRing` | runtime/memstore.go:105-131 | a store where a ring is met but a refusal comes first, and the delete is refused at once |
| `CascadeDelete.HitPath` | runtime/memstore.go:105-131 | a refusal shows the relations that led to it, with no ring beside them |
| `CascadeDelete.RefusalCounts` | runtime/memstore.go:105-131 | a refusal counts the rows that refer, through a restrict relation, to some of the rows that would go |
| `CascadeDelete.RefusedHits` | runtime/memstore.go:105-131 | relations that lead to a refusal so do end the walk with one |
| `CascadeDelete.EndsUnlessRing` | runtime/memstore.go:123-128 | following every cascade reference down, with nothing to refuse, ends if and only if no walk runs into a ring |
| `CascadeDelete.LongWalk` | runtime/memstore.go:123-128 | cascade references that do not end within n steps show n + 1 rows, each referring to the one before |
| `CascadeDelete.RankBounds` | runtime/memstore.go:123-128 | following cascade references ends when they have a rank that falls |
| `CascadeDelete.RingUnbounded` | runtime/memstore.go:123-128 | from a deleted id that is on a ring of cascade references, following them never ends |
| `CascadeDelete.WalkUnbounded` | runtime/memstore.go:123-128 | nor from one that a walk leads from to a ring |
| `Paging.RunQuery` | runtime/memstore.go:207-277 | filter, order with the id tiebreak, resume after the cursor's row, cap; the next cursor exactly when the page is full; the page rises in the column, numbers as numbers and texts by their first difference, rows equal there by id, or all of it backwards |
| `Paging.SortArranges` | runtime/memstore.go:230-244 | the sort puts rows with distinct ids and consistent values in that order |
| `Paging.LessValExact` | runtime/server.go:4428-4450 | two numbers compare as numbers, anything else by the first difference of the texts |
| `Paging.DrainIsEverything` | runtime/memstore.go:246-277 | following the cursor until it is empty yields every matching row once, in order, whatever the page size |
| `Paging.BeforeIsWeakOrder` | runtime/memstore.go:230-244 | ascending and descending, the comparator orders any rows with distinct ids and consistent values |
| `Paging.RowsTotal` | runtime/memstore.go:234-242 | two rows are ordered one way or are the same row |
| `Paging.ListRows` | runtime/region.go:209-309 | a list read through split predicate, pages and residual equals filtering every row, sorting and capping, for any limit, and rises, or falls, in its order |
| `Paging.FollowPages` | runtime/region.go:270-308 | the paging loop, stopping at the cap, shows the beginning of what reading everything shows |
| `Paging.ListRowsMore` | runtime/region.go:192-234 | the rows in their stored or computed order, capped, and `more` exactly when a further wanted row exists |
| `Paging.ListRowsBy` | runtime/region.go:222-234 | a computed order is applied to all wanted rows before the cap: keys rise, or fall, and rows with equal keys stand in the stored order |
| `Paging.KeySortArranges` | runtime/eval.go:1398-1425 | sorting by a key orders the keys and keeps what held between rows whose keys are equal |
| `Paging.ShownObeysReadRule` | runtime/region.go:452-468 | a list shows a row exactly when the read rule admits it, the predicate accepts it and it is not archived |
| `Paging.SplitRowsAreShown` | runtime/region.go:270-308 | the store's rows rechecked against the residual are the wanted rows, in order |
| `PredicateSplit.SplitPredicate` | runtime/region.go:346-384 | on the stored rows the pushed and residual halves hold together of exactly the ones the query wants, the pushed half reading the row alone; every conjunct that can be pushed is |
| `PredicateSplit.ComparisonPushed` | runtime/region.go:346-384 | a comparison of a column with anything computed outside the row, other than a list, is pushed |
| `PredicateSplit.RetypedSame` | runtime/region.go:625-645 | retyping a predicate's literals keeps its answer on a row whose compared values keep theirs |
| `PredicateSplit.FoldKeepsMeaning` | runtime/region.go:550-574 | folding what does not read the item changes no row's answer, where each folded value is a literal's or is a nil that compares alike on the row |
| `PredicateSplit.NilKeptExact` | runtime/region.go:603-619 | beside a value, an operator takes a nil for the empty text if and only if a condition on the operator and the value holds |
| `PredicateSplit.LitExact` | runtime/region.go:594-619 | a value folds to a literal of itself if and only if it is a bool, a number, a text or a list of those |
| `PredicateSplit.NilFoldLosesRow` | runtime/region.go:603-619 | a nil folded in loses a row the predicate accepts |
| `PredicateSplit.Unmentioned` | runtime/region.go:577-592 | an expression that does not mention a variable does not depend on it, aggregates rebinding it included |
| `PredicateSplit.PushableIsLocal` | runtime/pushdown.go:125-165 | a pushable predicate reads nothing but the row |
| `PredicateSplit.ConjunctsMeanAll` | runtime/region.go:386-395 | the flattened conjuncts hold together exactly when the predicate does |
| `PredicateSplit.RenameKeepsMeaning` | runtime/region.go:406-450 | the renamed read rule says of the query's row what the rule says of its own, when no aggregate in it that reads that row binds either row's name |
| `PredicateSplit.CaptureChangesRule` | runtime/region.go:430-433 | when one does, the renaming captures it and the rule changes |
| `PredicateSplit.MoneyOrderLosesRow` | runtime/server.go:3303-3313 | retyping a number to a money column's text loses a row under an order comparison |
| `LiteralTyping.EqualityKeptExact` | runtime/server.go:3303-3313 | for a value the column stores and a literal, equality on either side survives retyping if and only if a condition on the two holds |
| `LiteralTyping.ColumnKept` | runtime/server.go:3303-3313 | equality with everything the column can store, null included, survives if and only if a condition on the literal alone holds: a canonical number other than 0 for an int column |
| `LiteralTyping.OrderKeptExact` | runtime/server.go:3303-3313 | an order comparison with everything the column can store, null included, survives if and only if the literal has the column's form, is 1, or is a positive number meeting texts |
| `LiteralTyping.NullOrderExact` | runtime/server.go:3303-3313 | the same of a null alone, for any literal |
| `LiteralTyping.OrderKeptHolds` | runtime/server.go:3303-3313 | an order comparison survives on a stored value that is a text, or a number meeting 0 or 1, or a null the literal stands to alike |
| `PredicateSplit.ReadRuleFolded` | runtime/region.go:463-468 | the folded predicate holds exactly when the rule and the predicate do |
| `TextNumbers.AtoiItoa` | runtime/eval.go:2558-2588 | an int's text reads back as the int, so texts tell ints apart |
| `TextNumbers.ItoaIsDecimal` | runtime/eval.go:2558-2588 | an int's text is decimal: one digit, then each further digit behind, and a minus sign in front of a negative one |
| `Batching.SplitPinned` | runtime/region.go:1881-1909 | accepts if and only if every row pins the column and the rest of every predicate is the same, and gives that rest and each row's value |
| `Batching.PinAndOthers` | runtime/region.go:1885-1898 | a predicate holds exactly when the conjunct that pins the column and the others do |
| `Batching.PinnedGroup` | runtime/region.go:1812-1844 | one group of the grouped read is exactly the rows that row's own predicate selects |
| `Batching.Materializer.HoistAgg` | runtime/region.go:1790-1846 | batches if and only if every row's predicate compiles and they differ in one pinned value; files, for every row and every reduction its aggregate needs, an answer that is that row's own |
| `Batching.HoistedIsPerRow` | runtime/region.go:1790-1846 | each row's cached slot equals the reduction over the rows its own predicate gives |
| `Batching.Materializer.ResolveAgg` | runtime/region.go:1639-1677 | an answered aggregate is the fold of the rows its predicate selects, avg composed of sum and count, the empty case included, and is what evaluating it over the loaded rows gives: the least is some row's value, and so on; unanswered only when it cannot be pushed, its column is no number, or a list of many rows is being rendered and one of its reductions was not filed |
| `Batching.AggIsFold` | runtime/server.go:4809-4823 | evaluating an aggregate over the loaded, unarchived rows, as the residual of a list does, is the fold the store is asked for |
| `Batching.Materializer.AnswerOne` | runtime/region.go:1683-1707 | from the cache or one request, and refused only inside a multi-row list |
| `Batching.AggQueryExact` | runtime/region.go:1545-1586 | the compiled question holds of exactly the rows the aggregate ranges over |
| `Batching.CountBy` | runtime/memstore.go:289-312 | every value asked about comes back with the number of its rows, zero included; with no value asked about, every group does |
| `Batching.AggregateBy` | runtime/memstore.go:328-355 | the same with each group reduced |
| `Batching.Distinct` | runtime/region.go:1930-1944 | each asked text once |
| `LiteralTyping.ByTextExact` | runtime/eval.go:2527-2556 | a stored value and a literal are equal exactly when their texts are, if and only if one is a text, both are of one kind, or one counts as true and the other does not |
| `Batching.NullIsNotGrouped` | runtime/eval.go:2538-2555 | a row with no value equals a pinned 0 and is in no group named 0 |
| `Batching.ReduceAgg` | runtime/eval.go:910-984 | one pass with four accumulators gives the column's total, the total divided by the count toward zero, the least and the greatest of the rows' values, 0 over nothing |
| `Batching.ReduceReduces` | runtime/eval.go:910-984 | the least is some row's value and above no row's, the greatest dually; the average times the count falls short of the total by less than the count |
| `Batching.SumOfParts` | runtime/eval.go:910-984 | the sum of two parts is the sum of their sums, and of one row its value |
| `EarlyStop.EvalList` | runtime/eval.go:715-817 | sorting candidates first and stopping at the cap equals filtering, sorting and capping, in the column's order |
| `EarlyStop.ListedInOrder` | runtime/eval.go:798-815 | a list rises in its column, or falls, and rows equal there stand as they stood in the collection; with no order all of them do |
| `EarlyStop.SortedForEarlyStop` | runtime/eval.go:654-691 | says yes if and only if every row holds a number in the column, or every row a text, and then the order is a strict weak order on the rows |
| `EarlyStop.EvalExists` | runtime/eval.go:754-800 | one accepted row settles `exists` |
| `StableSort.SortCommutesWithFilter` | runtime/eval.go:654-659 | a stable sort under a consistent order commutes with filtering |
| `StableSort.EqualsKeepOrder` | runtime/server.go:4411-4426 | the sort is stable: rows none of which goes before another keep their order |
| `Channels.StepKeeps` | runtime/channel.go:69-275 | every step of every call, in any interleaving, keeps the invariant of registry, queues, sleepers and watchers |
| `Channels.NoLostWakeup` | runtime/channel.go:211-268 | in every reachable state, an awaitAny call blocked while one of its channels is ready has its token pending, and taking it starts a fresh scan |
| `Channels.NoLostBroadcast` | runtime/channel.go:123-156 | nobody sleeps where a value or room is waiting, or on a closed channel |
| `Channels.Conserved` | runtime/channel.go:114-209 | accepted values are the received, then the queued, then the discarded, in order; the queue is bounded; a handle is open, closed or being closed |
| `Channels.RunLater` | runtime/channel.go:82-98 | along every run histories only grow, a released handle never comes back, and a closed channel accepts and delivers nothing more |
| `Channels.HandlesFresh` | runtime/channel.go:69-80 | a minted handle was never in use |
| `Channels.AwaitAnswers` | runtime/channel.go:254-262 | awaitAny answers a channel ready when it looks; an earlier one that became ready since left a token |
| `Channels.AwaitEnds` | runtime/channel.go:220-269 | in every run, what awaitAny answers at last: a place whose channel was ready when the call looked at it, or had been taken out of the registry at its lookup; -1 only after its deadline passed while it was blocked; an error only for a handle never minted |
| `Channels.Told` | runtime/channel.go:114-183 | in every run and on every channel, what was accepted is what the sends were answered true for, and what was received is what the receives were answered with: each gets the oldest value sent and not yet received |
| `Channels.RefusalsSay` | runtime/channel.go:114-183 | a send is answered true exactly when the channel is open with room; a receive is refused only by a closed channel; a refusal changes nothing |
| `Channels.EndedAtOnce` | runtime/channel.go:82-98 | a call ends at its lookup exactly when its handle is not open, with an error if it was never minted |
| `ChannelMonitor.FctChan.Send` | runtime/channel.go:114-133 | one turn of send under the lock |
| `ChannelMonitor.FctChan.TrySend` | runtime/channel.go:166-183 | queued exactly when open with room |
| `ChannelMonitor.FctChan.Recv` | runtime/channel.go:139-159 | the oldest value, or why there is none |
| `ChannelMonitor.FctChan.CloseQueue` | runtime/channel.go:202-208 | closed, emptied, every watcher woken |
| `ChannelMonitor.FctChan.Notify` | runtime/channel.go:101-108 | every watcher has a token |
| `ChannelMonitor.Scan` | runtime/channel.go:254-262 | the first ready channel in the list's order, or none |
| `ChannelMonitor.ChannelRegistry.CreateSized` | runtime/channel.go:69-80 | a fresh handle within the size limits, nothing otherwise |
| `ChannelMonitor.ChannelRegistry.Lookup` | runtime/channel.go:87-98 | live, closed or never minted |
| `ChannelMonitor.ChannelRegistry.Release` | runtime/channel.go:189-201 | one closer takes a handle out for good |
| `FqTransaction.FqTx.Save` | runtime/fqstore.go:909-936 | the buffer still has the effect of every call made, in order, on any store, and no two inserts clash |
| `FqTransaction.FqTx.Delete` | runtime/fqstore.go:938-943 | the same after a delete |
| `FqTransaction.FqTx.Clear` | runtime/fqstore.go:948-956 | the same after a clear |
| `FqTransaction.FqTx.Commit` | runtime/fqstore.go:958-966 | what is sent has the effect of the calls one by one, or nothing is sent after a failed save |
| `FqTransaction.ReplaceIsLaterSave` | runtime/fqstore.go:877-897 | replacing an insert nothing later touches is saving again at the end |
| `FqTransaction.LastDecides` | runtime/fqstore.go:877-897 | at every address the last op that names it, or clears its kind, decides what a batch leaves there |
| `FqTransaction.ApplyExact` | runtime/fqstore.go:909-956 | an insert sets its address, a delete empties it, a clear every address of its kind, and nothing happens elsewhere |
| `FqTransaction.AppendSeparated` | runtime/fqstore.go:892-895 | two inserts at one address always have a delete or clear covering it between them |
| `CronReservation.Exclusive` | runtime/fqstore.go:1570-1618 | in every interleaving the winners form a chain: each took exactly the deadline its predecessor wrote, at a clock that had reached it, and a call is answered true exactly when it won |
| `CronReservation.Spaced` | runtime/jobs.go:96-120 | winners are whole intervals apart, less the delay between the two clock readings each, however clocks are skewed |
| `CronReservation.DelayShortens` | runtime/jobs.go:96-120 | a deadline computed in one second and reserved in the next leaves 59 seconds of a 60-second interval |
| `CronReservation.LoserChangesNothing` | runtime/fqclient.go:419-430 | a losing call found the reservation and left it as it was |
| `CronReservation.DueWins` | runtime/fqstore.go:1594-1620 | a compare-and-set wins exactly when the deadline has come, and a call that lost it wins exactly when there was no reservation; the winner leaves its own deadline |
| `SeedOrder.SeedOrder` | runtime/seed.go:113-148 | every entity once and no other, on any relation graph, each after what it refers to unless that refers back |
| `SeedOrder.Seeder.Visit` | runtime/seed.go:131-144 | the walk lists what it reaches, keeps the order topological up to cycles, and ends |
| `SeedOrder.NamesSorted` | runtime/seed.go:131-144 | an entity's references are visited in the order of their names |
| `SeedOrder.AcyclicOrder` | runtime/seed.go:113-115 | every entity follows all it refers to if and only if no listed entity is on a cycle |
| `SeedOrder.BuildGraph` | runtime/seed.go:117-126 | the graph of relations other than to the entity itself |

## Left out

- Values in procs: maps, byte buffers, text and float slots, records, struct fields that are structs, and paths of two or more fields; a struct stored into a struct or a literal fails alike in both machines.
- Names and scopes in procs: slots come resolved, each declaration with a slot of its own and no use outside its block; `Refinement.WellFormed` states that.
- The generic index write, which fetches its target before evaluating the value: only the native int write is modelled. The temporary of `x.f[i] = v` takes that generic path in the code (`runtime/proccompile.go:849-873`); it is modelled by the native write, which gives the same result.
- `do` statements are modelled as the assignment or `let` of a call; result coercion to a declared type is not.
- Struct literals name their fields in layout order; `len` of what is no list fails in both machines.
- Ints in procs are mathematical in the ownership machines and 64-bit in OperatorPaths; list capacity is not modelled, a list and its backing array are one cell.
- Spawn, join, detach, profiling labels, frame reuse and the text builder behind `x = x + e` (its value is `OperatorPaths.AppendIsGeneric`).
- OperatorPaths.CompiledIsGeneric: floats are an abstract type with the operations the code uses, and native float trees are not modelled apart from tagged numbers.
- RuneSearch.RuneIndexOf: states valid UTF-8 only; the cache of text indexes is not modelled.
- Rows are values: two holders of one stored record, and a reference cleared under a reader, are not modelled.
- Expressions: floats, records built by literals, the client-only states, effectful builtins and all but two pure builtins; texts of numbers with a fraction, an exponent or surrounding blanks read as 0.
- Row lookup by index, search pushdown, the degraded path after a store error, ephemeral entities, the render memo of aggregates and field gating.
- Cursor text: base64 and JSON are taken as an encoding that decodes to the row's id.
- EarlyStop.EvalList: an order by an expression that is a bare field is taken as the order by that field, and the shaping of each shown row is left out.
- The in-memory store's transaction, sessions, jobs, cron and audit: sequences of operations with no property of their own.
- Channels: time, beyond a wait with a deadline ending at any moment; `closeAll`, which is one close per handle.
- FqTransaction.FqTx.Save: the wire fields other than address, kind and data, and the entity names for which two addresses could spell alike.
- The remote engine's cascade after a batch is applied.
- CronReservation.Exclusive: a request that fails for another reason than its precondition answers an error and is not modelled.
- HTTP, authentication, rendering, mobile, encryption, file and process builtins: libraries and templates around the core.
