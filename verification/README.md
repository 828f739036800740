# perfscan: a verified model of its dependency interpreter, its rewrites and its edits

perfscan reports slow Go code and offers rewrites it calls bit-identical. This project models
the parts that carry those promises and proves them in Dafny.

**The dependency interpreter of PS1006** decides which variables may hold data from a serial
loop variable. Its state is a set of objects, a stride key per object and a pointer alias per
object (`DependencyState`). `GoBodies` is the Go fragment it walks, with a concrete semantics in
which each cell carries two flags, "holds loop data" and "holds it in stride position"; only
explicit flow sets them, as in the code. `OrderedTransfer` specifies the ordered transfer with
its budget of 512 statements and calls, its active bodies and its eight loop rounds.
`OrderedInterpreter` is the same in the code's own form and computes exactly that.
A pointer the state does not track is resolved through the values it may have been given, in the
current alias map; `AliasResolution` says exactly when retargeting other pointers does no harm,
and `Confinement` reads off the program what a call can write, so that this is decided before it.
`OrderedSoundness` proves that an answer covers every run, and `OrderedMeaning` says what the
flag is worth: the loop variable's value cannot be seen in a variable left out of the result.
`OrderedLimits` shows inputs outside the theorem's conditions on which the code is wrong.

Soundness alone would let an answer mark everything. `Precision` proves the other half for
expressions and assignments: each mark is carried by the value in some store that the state
describes. `CallPrecision` proves it for whole calls, loops included, where every load on the way
has one target (`SharpLoads`), and `PrecisionLimits` shows what happens where a load has several.
`AnsweredCalls` proves that well-formed calls are refused for want of budget only.

**Branches.** `ConditionFlow` covers `&&`, `||`, `!` and the deduplication that joins states
once there are too many; `SwitchFlow` specifies statement lists, loops and switches over sets of
states, `SwitchInterpreter` is its imperative form, and `SwitchCoverage` proves that no store is
lost. `SwitchPrecision` proves that the sets hold nothing superfluous: what cannot end gives no
states, and every state is what the leaves along one path make of a state before. `SwitchLimits`
says exactly which breaks, jumps and pointer assignments the sets of states
follow. `CallLeaves` plugs the ordered transfer in, and `PointerCalls` shows it at work on calls
that write through a captured pointer and retarget it.

**Memo tables of PS1006.** `TileCompletion` is the worklist over control-flow blocks with its
remembered answers; `PurityCache` is the cached purity of calls with its visit counter.

**Rewrites.** `LoopInterchange` (PS1006), `OuterUnroll` (PS1007), `ColumnSums` (PS1010),
`SlabRows` (PS2008), `AppendChain` (PS2033) and `FormatSplit` (PS2034) hold both the source
program and its replacement. Element operations are parameters without laws, so equal results
mean the same operations in the same order. Slices are windows of shared memory (`Windows`,
`GoSlices`), so overlap is possible and its consequences are stated.

**Edits.** `CallFlattening` and `ImportEdits` work on text: what a list of deletions leaves of
the printed source (`TextEdits`).

## Where the code does less than it says

Each of these is a lemma with a concrete input, or an exact condition.

- The address of a formal: a write through it is resolved, but later reads of the formal still
  return the snapshot taken at the call (`OrderedLimits.FormalWriteCovered`).
- An untracked copy of a pointer resolves through that pointer's current alias, so retargeting
  the original moves the copy's targets too, and a write through the copy clears the wrong
  variable (`OrderedLimits.RetargetedCopyIsMissed`). `AliasResolution.RetargetCoveredIff` gives
  the exact condition on the values and the alias map under which this cannot happen, and
  `OrderedSoundness.OrderedCallSound` asks for it.
- An index expression is scanned for identifiers, so data behind a dereference inside it is
  missed, unless what the load brings is within what the scan says
  (`OrderedLimits.IndexCoveredIff`). The result field `fits` says that every scan took it in.
- A return inside a nested block, or without results inside a loop, does not end the transfer
  (`OrderedLimits.NestedReturnIsMissed`, `OrderedLimits.BareReturnInLoopIsMissed`); that is
  harmless exactly when what follows keeps the description
  (`OrderedLimits.ReturnCoveredIff`, `OrderedLimits.LaterReturnCoveredIff`), as it does when
  nothing follows. The post statement of a loop counts as following
  (`OrderedLimits.PostBehindReturnIsMissed`). Results of such a return are dropped.
- A loop that has not settled after eight rounds is answered all the same
  (`OrderedLimits.NinthRoundIsMissed`).
- The answer for a call can mark too much where loads have several targets: each load joins them
  anew, so what one load brought counts although the run that brought it makes the next load
  clean (`PrecisionLimits.TwoLoadsTightIff` says exactly when). The loop variable counts as
  marked even after it was overwritten (`PrecisionLimits.OverwrittenInnerTightIff`).
- Deduplication joins the first 257 distinct states and drops the others
  (`ConditionFlow.DedupeLosesStates`).
- A case body that reaches `continue` or `goto` loses its breaks too: it is covered exactly when
  no break can come before (`SwitchLimits.JumpCoveredIff`). In a loop body a `break` runs on
  through the statements it skips (`SwitchLimits.ConditionalBreakIsMissed`): whatever its leaves
  do, a list that may break is covered exactly when no further effects follow it
  (`SwitchLimits.BreakCoveredIff`). A loop body that ends in `continue` leaves no states
  (`SwitchLimits.ContinueCoveredIff`), and effects behind a `continue` are met by states that
  skip them (`SwitchLimits.ContinueBeforeEffects`).
- Assignments and declarations in a case body, and the init of an if or switch, leave the alias
  map as it was, so a pointer set there is still said to point where it did
  (`SwitchLimits.RetargetInCaseIsMissed`, `SwitchLimits.CaseAssignmentCoveredIff`).
- PS1007 promises exactly the original element accesses. In the variant that reads the weight
  inside the inner loop, the replacement reads weights even when that loop is empty
  (`OuterUnroll.UnrollExactly`). Names are compared, storage is not: a pair is right for all
  contents exactly when the output row does not hold the second weight, does not begin inside the
  first source row, and holds no weight that is read again (`OuterUnroll.PairAgreesIff`).
- PS1010 allocates its slab before the loop that a negative bound would skip
  (`ColumnSums.RowMajorExactly`), and also compares names only: the rewrite is right for all
  contents exactly when no row starts before the output by less than the bound, or both forms
  panic (`ColumnSums.AgreesIff`).
- PS2033: when the result does not fit, the chain has already written some operands into the
  old array, which Appendf leaves alone (`AppendChain.ChainIsAppendf`).
- Flattening leaves a nested call's trailing comma behind (`CallFlattening.FlatteningOnText`).
- Dropping an import by path also drops a dot import of that path (`ImportEdits.DotImportIsDropped`)
  and leaves one whose path is written as a raw string (`ImportEdits.NothingOrphaned`).

## Choices of the model

- An object is an identity with one storage cell; the address of a local is not kept into a
  later activation of its function. Alias targets are a set, since every producer removes
  duplicates and every consumer asks for membership or for the count.
- The expressions a pointer may have been given its value by (`ps4008PossibleAliasValues`, not
  part of this model) are an oracle `p.values`, the same at every position of the walked bodies.
  What the code makes of them, in the current alias map and environment, is modelled.
- The results of a return are read strictly from left to right. Go leaves open whether a variable
  is read before or after a later call in the same return, so `return x, f()` with an `f` that
  writes x is covered for one of two legal orders.
- Right-hand sides and arguments hold no calls, so evaluating an argument does not change the
  state. Calls stand as statements and as return results, and may have several possible bodies.
- States are compared by their contents, where the code compares a text made of them.
- `settled`, `fits` and `most` in the specification functions tell whether every loop repeated
  a head, whether every scan of an index expression took in the loads inside, and how many
  distinct states a deduplication was handed at most. The code does not compute them.
- The theorems on precision speak of marks. Their stores hold numbers and, where pointers are
  followed, well-typed pointers; `p.depth` is the only typing there is. Values assigned to
  pointers that are watched are pointers, not the literal nil.
- In `ConditionFlow` and `SwitchFlow` a leaf (an expression, an assignment, a declaration) has
  an effect given by an oracle that is assumed sound where the leaf ends; a leaf that panics ends
  the run. `CallLeaves` proves the assumption for calls the ordered transfer answers. Its premises
  speak of described stores from which the call ends, and of free objects that are read off the
  program; `PointerCalls.PointerCallsAreJoined` meets all of them. After `return`, `goto` or a
  `continue` that leaves the statements looked at, no state is asked for.
- Token positions are offsets into the text. `strconv.Quote` is a parameter.

## Model

| member | source | states |
|---|---|---|
| DependencyState.UnionDependencyState | checks/ps1006.go:2630-2680 | the join as computed, with strides folded state by state and aliases object by object, is the declarative n-ary union |
| DependencyState.UnionIsJoin | checks/ps1006.go:2630-2680 | the union of a non-empty list is the only normal least upper bound: sets by inclusion, strides in a flat lattice with may-stride on top, an alias known only if known in every input |
| DependencyState.UnionIsOrderless | checks/ps1006.go:2630-2680 | order and repetition of the inputs do not matter |
| DependencyState.UnionIsAssociative | checks/ps1006.go:2630-2680 | bracketing does not matter as long as the inner union has an input |
| DependencyState.EmptyUnionIsNotNeutral | checks/ps1006.go:2650-2679 | an empty union inside another one turns a known alias into an unknown one |
| DependencyState.StrideTop | checks/ps1006.go:2638-2649 | one key survives, two different keys become may-stride |
| OrderedInterpreter.OrderedCallDependencyState | checks/ps1006.go:948-960 | the entry point, with a fresh budget and no active body, computes the specified transfer of the call |
| OrderedInterpreter.CallContext.Call | checks/ps1006.go:962-1075 | one call step: budget, argument snapshots, join of the possible bodies; active set restored |
| OrderedInterpreter.CallContext.Callees | checks/ps1006.go:1011-1065 | every possible body runs on its own copy of the entry state and is active while it does |
| OrderedInterpreter.CallContext.Block | checks/ps1006.go:1389-1489 | a statement list, with the budget left exactly as specified also on failure |
| OrderedInterpreter.CallContext.Statement | checks/ps1006.go:1395-1487 | each statement kind, with the returns of nested statements dropped |
| OrderedInterpreter.CallContext.ReturnResults | checks/ps1006.go:1452-1481 | results are snapshotted in order, between the effects of called results |
| OrderedInterpreter.CallContext.Loop | checks/ps1006.go:1491-1525 | the moving loop head, joined with the entry, for at most eight rounds |
| OrderedInterpreter.AssignInOrder | checks/ps1006.go:1581-1635 | rejects exactly the assignments the specification rejects; otherwise all right-hand sides are taken before the first write |
| OrderedInterpreter.StoreInOrder | checks/ps1006.go:1617-1634 | writes from left to right, so a later write to the same object wins |
| OrderedInterpreter.HeaderInOrder | checks/ps1006.go:1527-1539 | init and post statements: assignment, declaration, increment or nothing |
| OrderedInterpreter.DeclareInOrder | checks/ps1006.go:1559-1579 | a declaration line by line, each as an assignment, refused where names and values do not pair up |
| OrderedInterpreter.ObjectTargetsInOrder | checks/ps1006.go:1905-1934 | the tracked alias, or the targets gathered from the values one after the other, with the objects on the way marked |
| OrderedInterpreter.PointerTargetsInOrder | checks/ps1006.go:1811-1883 | targets of a pointer expression, with loads through several pointers |
| AliasResolution.TargetsAbove | checks/ps1006.go:1811-1934 | what a pointer resolves to after others were retargeted covers what it was known to point to before, if the pointers it depends on are anchored |
| AliasResolution.RetargetCoveredIff | checks/ps1006.go:1905-1934 | anchoring is exact: every retargeting of the free objects keeps all targets of untracked pointers if and only if each is found without looking at a free object |
| AliasResolution.AvoidingAnchors | checks/ps1006.go:1905-1934 | pointers whose value chains meet no object that is written are anchored |
| OrderedSoundness.OrderedCallSound | checks/ps1006.go:942-1075 | main theorem: an answer covers every run of the call, over all paths, callees, pointer graphs and loop counts, when untracked pointers are anchored outside the written objects and index scans fit: loop data is in deps, stride data has a key, known targets hold the real one, unwritten objects are unchanged, and results that are not dropped are covered |
| Confinement.WrittenIsForeseen | checks/ps1006.go:962-1706 | what an answer writes and tracks lies in a set read off the program, the arguments and the initial aliases: assigned variables, addresses taken, known targets |
| Confinement.MayStartBefore | checks/ps1006.go:948-960 | so the condition of the main theorem on untracked pointers can be decided before the call |
| Confinement.PlainProgramsFit | checks/ps1006.go:1774-1789 | where no index expression loads through a pointer, every scan fits |
| OrderedSoundness.CallSound | checks/ps1006.go:962-1075 | the same for a call inside an activation, for whichever body is entered |
| OrderedSoundness.EnterReady | checks/ps1006.go:985-1010 | binding snapshots of the arguments to the formals covers the cells the formals receive |
| OrderedSoundness.MergeCovers | checks/ps1006.go:1077-1134 | the merged k-th return binding covers the k-th value of every body |
| OrderedSoundness.BlockSound | checks/ps1006.go:1389-1489 | a statement list is covered, whether it ends, returns or is left early, returns at the end of nested blocks and loops included |
| OrderedSoundness.ResultsSound | checks/ps1006.go:1452-1481 | return values are covered by their bindings although later results may call functions that write |
| OrderedSoundness.RoundsSound | checks/ps1006.go:1510-1524 | loop coverage: a settled answer covers every number of rounds, an unsettled one as many as were tried |
| OrderedSoundness.FixpointSound | checks/ps1006.go:1516-1521 | a head that repeats covers every number of rounds from it |
| OrderedSoundness.AssignmentSound | checks/ps1006.go:1581-1635 | tuple, compound and dereferencing assignments keep the state a description of the store, and change nothing outside the written objects |
| OrderedSoundness.PlaceSound | checks/ps1006.go:1637-1666 | a resolved target is the real place of the write |
| OrderedSoundness.HeaderSound | checks/ps1006.go:1527-1539 | loop headers keep the state a description of the store |
| OrderedSoundness.EvalSound | checks/ps1006.go:1708-1934 | dependency and pointer targets of an expression, resolved in the current alias map, cover its value, index expressions with fitting loads included |
| OrderedSoundness.IndexSound | checks/ps1006.go:1774-1789 | the identifier scan covers an indexed read whenever each load through a pointer inside is covered and within what the scan says |
| OrderedSoundness.UnionCovers | checks/ps1006.go:2630-2680 | the join describes every store one of its inputs describes |
| OrderedMeaning.CallsAgree | checks/ps1006.go:962-1075 | two runs along one path that differ only in loop data keep differing only there, flags included |
| OrderedMeaning.LoopVariableDoesNotReach | checks/ps1006.go:940-960 | end to end: outside deps the final values are the same whatever the loop variable held |
| OrderedLimits.FormalWriteCovered | checks/ps1006.go:1653-1662 | a write through the address of an object is covered exactly when the object is no formal, or its snapshot promises as much |
| OrderedLimits.RetargetedCopyIsMissed | checks/ps1006.go:1905-1934 | q and its copy p point to a; after q = &b the write *p = 0 clears b in the answer, while b still holds loop data |
| OrderedLimits.IndexCoveredIff | checks/ps1006.go:1774-1789 | a[*q] is answered rightly for every described store exactly when what q may point to has no flag the scan lacks |
| OrderedLimits.ReturnCoveredIff | checks/ps1006.go:1433-1441 | a body that begins with a bare return in a block or a loop: covered exactly when the answer still describes whatever the state before described |
| OrderedLimits.LaterReturnCoveredIff | checks/ps1006.go:1433-1441 | the same behind any statements, for the state at the return |
| OrderedLimits.NestedReturnIsMissed | checks/ps1006.go:1433-1441 | a return in a nested block: the transfer goes on and clears a variable that still holds loop data |
| OrderedLimits.BareReturnInLoopIsMissed | checks/ps1006.go:1510-1514 | a bare return in a loop passes for the end of a round |
| OrderedLimits.PostBehindReturnIsMissed | checks/ps1006.go:1510-1514 | and the post statement is applied behind it |
| OrderedLimits.NinthRoundIsMissed | checks/ps1006.go:1510-1524 | for every chain of more than eight copies and every number of trips from nine to its length, the ninth copy is not covered: eight is the exact bound |
| Precision.EvalTight | checks/ps1006.go:1708-1796 | the other half of EvalSound: each mark of an expression's answer, loads through pointers included, is carried by its value in some well-typed store that the state describes |
| Precision.KnownIff | checks/ps1006.go:1708-1796 | the answer is known exactly when every pointer loaded through has known targets and every formal read was handed something known |
| Precision.LoadFreeIsKnown | checks/ps1006.go:1708-1796 | outside all bodies an expression without a load is always known |
| Precision.Points | checks/ps1006.go:1811-1934 | every target of a pointer expression is where it points in some described store |
| Precision.ResolvesAlongChains | checks/ps1006.go:1811-1883 | a pointer expression is known exactly when every object on the chains of loads is, and its targets are the ends of the chains |
| Precision.DescribedIsCoversNow | checks/ps1006.go:1708-1796 | the described stores of this module are those a caller has in mind, when the environment is empty |
| Precision.AssignTight | checks/ps1006.go:1581-1635 | each mark that a tuple, compound or dereferencing assignment leaves is left by its run from some described store |
| Precision.IncDecTight | checks/ps1006.go:1668-1683 | the same for x++ and x-- |
| Precision.PlainAssignmentApplies | checks/ps1006.go:1581-1635 | an assignment of load-free values to variables is never refused |
| CallPrecision.CallTight | checks/ps1006.go:942-1075 | the other half of OrderedCallSound: where every load on the way has one target, each object the answer marks is left marked by some run of the call from a store the caller's state describes, loops, callees and callees of callees included |
| CallPrecision.ResultTight | checks/ps1006.go:1452-1481 | and each result the answer marks is returned marked by some run |
| CallPrecision.DirectCallTight | checks/ps1006.go:942-1075 | programs without loads need no condition on the way |
| CallPrecision.AssignAliases | checks/ps1006.go:1617-1634 | after an assignment to a watched pointer its alias is what the last value resolved to |
| CallPrecision.UnionMarks | checks/ps1006.go:2630-2680 | a join marks an object exactly when one of its inputs does |
| CallPrecision.MergedExactly | checks/ps1006.go:1077-1134 | a merged result is marked exactly when one of the bodies marks it, known exactly when all know it, with the targets of all |
| AnsweredCalls.CallIsAnswered | checks/ps1006.go:962-1525 | a call of well-formed bodies without loads and recursion is refused for want of budget only, and an answer has the declared number of results |
| AnsweredCalls.StraightCallAnsweredIff | checks/ps1006.go:963-966 | a body of plain statements is answered exactly when there are at most 511 of them |
| AnsweredCalls.SettledIff | checks/ps1006.go:1510-1524 | an answered loop is settled exactly when a head repeats within the rounds |
| PrecisionLimits.TwoLoadsTightIff | checks/ps1006.go:1734-1750 | a = *q; u = 0; x = *q: the mark on x is in vain exactly when a is a target of q and u was the only marked one |
| PrecisionLimits.OverwrittenInnerTightIff | checks/ps1006.go:1724-1728 | inner = y; x = inner: x is always marked, and some run marks it exactly when y was marked |
| ConditionFlow.DedupeDependencyStates | checks/ps1006.go:2308-2326 | the deduplicated list, in order of first occurrence, or the one union of the first 257 |
| ConditionFlow.DedupeCovers | checks/ps1006.go:2308-2326 | no covered store is lost while at most 257 distinct states arrive |
| ConditionFlow.DedupeLosesStates | checks/ps1006.go:2319-2323 | for every larger number some list loses its last state, so 257 is exact |
| ConditionFlow.DedupeInNumbers | checks/ps1006.go:2308-2326 | up to 256 distinct states come back as they are, 257 as their union, more as the union of the first 257 |
| ConditionFlow.CondCovers | checks/ps1006.go:2268-2306 | short-circuit coverage: evaluating to true or false ends in a store covered on that side |
| ConditionFlow.SmallIsWithin | checks/ps1006.go:2268-2326 | a bound computed from the condition alone guarantees the proviso on deduplication |
| ConditionFlow.UniformIsSmall | checks/ps1006.go:2268-2326 | that bound admits every chain of up to 257 tests joined by && or by the other operator, however grouped |
| CallLeaves.CallLeafCovers | checks/ps1006.go:435-525 | when the ordered transfer answers, its state covers what the call leaves behind, with tracked and with untracked aliases |
| CallLeaves.RefinedIsTrusted | checks/ps1006.go:446-525 | replacing the conservative transfer by the ordered one keeps a sound transfer sound, for calls that may panic and that write through pointers |
| CallLeaves.AnsweredLeafTight | checks/ps1006.go:513-521 | where the call is answered, each mark of the refined state is left by some run of the call |
| PointerCalls.PointerCallsAreJoined | checks/ps1006.go:435-525 | all premises hold for two leaves of which one calls a function that writes through a captured pointer and the other one that retargets it |
| PointerCalls.PointerCallsAreAnswered | checks/ps1006.go:435-525 | and the first is answered with exactly the pointer's target written, whichever of its targets that is |
| CallLeaves.CallsInBranchesCovered | checks/ps1006.go:2268-2518 | conditions and switches with calls in them are covered by the combination |
| SwitchFlow.WalkInOrder | checks/ps1006.go:2347-2359 | case expressions of one clause in source order, with one running state |
| SwitchFlow.SelectedDependencyStates | checks/ps1006.go:2331-2367 | selections of every clause, and the default only after all expressions missed |
| SwitchCoverage.ClauseCovers | checks/ps1006.go:2331-2367 | the clause that matches is selected with a state covering all earlier expressions' effects |
| SwitchCoverage.SwitchCovers | checks/ps1006.go:2487-2518 | switch coverage: default anywhere, constant cases, breaks, fallthrough chains and continues; the store leaving the switch is covered by some returned state |
| SwitchCoverage.FlowBodyCovers | checks/ps1006.go:2525-2558 | a case body: stores that fall out of it and stores that break are covered by flows of that kind, where assignments leave the aliases alone |
| SwitchCoverage.FlowStmtCovers | checks/ps1006.go:2560-2609 | one statement of a case body |
| SwitchCoverage.ExitBlockCovers | checks/ps1006.go:2394-2409 | a statement list outside a case body, with breaks in tail position of a loop body |
| SwitchCoverage.ExitStmtCovers | checks/ps1006.go:2369-2457 | one statement, including if chains, loops and switches |
| SwitchCoverage.LoopCovers | checks/ps1006.go:2461-2481 | a settled loop covers every number of trips, an unsettled one up to eight, whether the condition fails or the body breaks |
| SwitchCoverage.FixpointCovers | checks/ps1006.go:2473-2475 | a head that repeats covers every number of trips from it |
| SwitchFlow.NoJumpIsRegular | checks/ps1006.go:2369-2609 | statements without break, continue and goto whose leaves keep the aliases meet the condition of the coverage theorems everywhere |
| SwitchPrecision.NoEndNoStates | checks/ps1006.go:2394-2609 | a list, case body or switch that by its statements can neither fall through nor leave by an allowed break has no states or flows |
| SwitchPrecision.StatesAreFolds | checks/ps1006.go:2268-2609 | without loops, and while at most 256 distinct states meet, every state of a list, case body or switch is what the leaves along one path to an allowed end make of a state before |
| SwitchPrecision.LoopStatesAreFolds | checks/ps1006.go:2461-2481 | the states of a loop come from one of at most nine heads, each the join of the entry with what trips from the head before lead to: the condition fails there, or a last trip is made |
| SwitchPrecision.LoopSettlesIff | checks/ps1006.go:2461-2481 | a loop is settled exactly when a head repeats within the rounds |
| SwitchLimits.JumpDropsBreaks | checks/ps1006.go:2539-2541 | a case body that reaches continue or goto has no flows at all |
| SwitchLimits.JumpCoveredIff | checks/ps1006.go:2525-2558 | it is covered, whatever its leaves do, exactly when its statements let no break come before |
| SwitchLimits.ContinueCoveredIff | checks/ps1006.go:2394-2457 | the trip through a loop body that ends in continue is covered exactly when no trip ends |
| SwitchLimits.BreakRunsOn | checks/ps1006.go:2394-2454 | in a loop body the states of a break, nested or not, meet the statements behind it |
| SwitchLimits.ConditionalBreakIsMissed | checks/ps1006.go:2394-2454 | if c { break }; x = 0 leaves the loop with loop data in x, and no state describes that store |
| SwitchLimits.BreakCoveredIff | checks/ps1006.go:2394-2454 | a list that may break, followed by effects of leaves that do not occur in it: covered whatever the leaves do exactly when there are no such effects |
| SwitchLimits.ContinueBeforeEffects | checks/ps1006.go:2394-2457 | a list that may continue, followed by such effects, is not covered |
| SwitchLimits.BreakBeforeEffects | checks/ps1006.go:2394-2454 | if c { break } before effects, for given leaves: covered exactly when the state before the effects is below the one after them, flag by flag and target by target |
| SwitchLimits.InnerBreakCovered | checks/ps1006.go:2394-2454 | a break inside conditionals and blocks is covered when what follows keeps the description |
| SwitchLimits.CaseAssignmentCoveredIff | checks/ps1006.go:2560-2581 | a pointer assignment in a case body or an init: covered exactly when the state with the old aliases is above the one with the new ones |
| SwitchLimits.RetargetInCaseIsMissed | checks/ps1006.go:2560-2567 | q = &b in a case body: q points to b and the state says a |
| SwitchLimits.Realize | checks/ps1006.go:2369-2457 | every end read off a statement is the end of some run |
| SwitchFlow.RunsMayEnd | checks/ps1006.go:2369-2457 | and every end of a run can be read off the statement |
| SwitchInterpreter.ExitStatesForBlock | checks/ps1006.go:2394-2409 | statement by statement, with the early end when no state is left |
| SwitchInterpreter.ExitStatesForStatement | checks/ps1006.go:2369-2457 | each statement kind |
| SwitchInterpreter.ExitStatesForLoop | checks/ps1006.go:2461-2481 | the moving head, at most eight times, and the last pass when it never repeats |
| SwitchInterpreter.ExitStatesForCaseClauses | checks/ps1006.go:2487-2518 | clause bodies with carried fall-through states, then the states no clause took |
| SwitchInterpreter.FlowsForCaseBody | checks/ps1006.go:2525-2558 | a case body, where exited flows are carried along |
| SwitchInterpreter.FlowsForCaseStatement | checks/ps1006.go:2560-2609 | one statement of a case body |
| TileCompletion.AnalysisIndex.OuterIterationCompletesInnerTile | checks/ps1006.go:3546-3627 | the answer, remembered or not, is true exactly when every feasible live walk of an outer iteration completes the tile before post or header, and none reaches the outer done block or the tail; a remembered answer costs no visit |
| TileCompletion.AnalysisIndex.Explore | checks/ps1006.go:3589-3626 | the worklist ends after at most two visits per block, with that answer |
| TileCompletion.Successors | checks/ps1006.go:3619-3623 | the live successors, with the flag after the block |
| TileCompletion.WalksAreSeen | checks/ps1006.go:3589-3626 | every walk ends in a state of a closed set |
| TileCompletion.Confirmed | checks/ps1006.go:3625-3626 | a closed set of good states proves the answer true for all walks |
| TileCompletion.CompletesByBlocks | checks/ps1006.go:3604-3618 | the answer over all walks, in terms of the header, post, done and tail blocks |
| PurityCache.PurityTable.ValuePureCall | checks/ps1006.go:4662-4684 | the memoised answer equals the recursive definition, also while enclosing calls are still being worked on |
| PurityCache.PurityTable.NestedCallsValuePure | checks/ps1006.go:4686-4706 | the walk over the arguments, which stops at the first impure call and does not enter calls twice |
| PurityCache.PurityTable.Query | checks/ps1006.go:4662-4684 | any sequence of queries keeps the table right |
| PurityCache.PurityTable.VisitsBounded | checks/ps1006.go:4686-4706 | over all queries together the counter never exceeds the number of syntax nodes |
| PurityCache.OwedFits | checks/ps1006.go:4686-4706 | every node below a call belongs to the walk of one call only |
| PurityCache.PureByPositions | checks/ps1006.go:4662-4706 | a call is pure exactly when every call at a position below it, by way of arguments and children but not of what is called, is allowed |
| LoopInterchange.AcceptsBounds | checks/ps1006.go:5672-5686 | the guard accepts exactly the constants for which both nests stay in range |
| LoopInterchange.QuotientBounds | checks/ps1006.go:5684-5686 | the quotient test decides, and after it the 64-bit product does not overflow |
| LoopInterchange.IndexFits | checks/ps1006.go:5737-5741 | every index lies in the source and its computation does not overflow |
| LoopInterchange.FitsIsNeeded | checks/ps1006.go:5681-5686 | with a positive column count the guard's condition holds exactly when every index of the source nest is in range |
| LoopInterchange.ColumnMajor | checks/ps1006.go:5570-5577 | the source leaves each column's ascending sum in the output and nothing else changed |
| LoopInterchange.RowMajor | checks/ps1006.go:5736-5745 | the replacement leaves the same output, for an addition without laws |
| OuterUnroll.RunOriginal | checks/ps1007.go:161-184 | the source loops: final memory, or an index panic |
| OuterUnroll.RunUnrolled | checks/ps1007.go:351-370 | the emitted loops: pairs, then the serial tail sharing the index |
| OuterUnroll.RunPair | checks/ps1007.go:352-358 | one pair: both weights first, then two separate adds per element |
| OuterUnroll.PairIsTwoSteps | checks/ps1007.go:352-358 | a pair that does not clash does what two steps of the source do, provided both weights can be read |
| OuterUnroll.PairAgreesIff | checks/ps1007.go:311-316 | for given slices a pair and two steps agree on all contents and operations exactly when they do not clash, or panic both |
| OuterUnroll.SourceClashes | checks/ps1007.go:311-316 | an output that begins inside the first source row: the results differ |
| OuterUnroll.SecondWeightClashes | checks/ps1007.go:311-316 | an output that holds the second weight: the results differ |
| OuterUnroll.LateWeightClashes | checks/ps1007.go:311-316 | an output that holds a weight read again in the inner loop: the results differ |
| OuterUnroll.UnrollExactly | checks/ps1007.go:161-184 | for every trip count, bound, length and content, when no pair clashes, same memory and same panics; and exactly when that fails |
| OuterUnroll.ApartDoesNotClash | checks/ps1007.go:311-316 | an output that shares no element with the operands never clashes |
| ColumnSums.RunOriginal | checks/ps1010.go:231-241 | the column walk: final memory, or a panic |
| ColumnSums.RunRowMajor | checks/ps1010.go:422-430 | the emitted slab and divide passes |
| ColumnSums.RowMajorExactly | checks/ps1010.go:231-264 | for all rows, ragged and overlapping ones too, unless a column is read where an earlier result went: same memory and same panics exactly for bounds that are not negative |
| ColumnSums.ShortRow | checks/ps1010.go:258-262 | a row shorter than the bound stops the column walk too |
| ColumnSums.AgreesIff | checks/ps1010.go:365-380 | for given slices and bound both forms agree on all contents and operations exactly when no row starts before the output by less than the bound, or both panic, and the bound is not negative |
| SlabRows.SlabShowsTheSame | checks/ps2008.go:118-185 | for every row count, length and program of reads, writes, appends, copies and reslices, both forms show the same values, lengths, capacities and panics |
| SlabRows.RunCommutes | checks/ps2008.go:118-185 | the slab run is the image of the row run under the address map, after every program |
| SlabRows.StepCommutes | checks/ps2008.go:118-185 | one operation on either form: same observation, related states |
| SlabRows.MakeRows | checks/ps2008.go:120-120 | the source loop builds one array per row |
| SlabRows.MakeSlab | checks/ps2008.go:173-177 | the emitted loop cuts capped views that map onto those arrays |
| SlabRows.AppendKeepsOtherRows | checks/ps2008.go:122-127 | an append to one row leaves every other row as it was |
| SlabRows.UncappedViewsOverlap | checks/ps2008.go:122-127 | without the third index an append to a row is written over the beginning of the next |
| AppendChain.ChainIsAppendf | checks/ps2033.go:43-68 | chain and Appendf: same bytes always; same heap when it fits; old arrays equal exactly when nothing, or nothing new, was written |
| AppendChain.FirstIsFixed | checks/ps2033.go:174-187 | with a fixable shape, evaluating operands late makes no difference |
| AppendChain.SafeShapes | checks/ps2033.go:174-224 | for each shape of operands: chain and Appendf give the same bytes on every heap exactly when all operands after the first are fixed text, so every other shape has a breaking heap; a fixable shape also has two operands and does not begin with a byte slice |
| AppendChain.ByteSliceOperandBreaks | checks/ps2033.go:189-200 | a byte slice in the spare capacity reads what the first append wrote |
| AppendChain.LaterCallBreaks | checks/ps2033.go:202-224 | so does a later operand that runs code |
| AppendChain.BuildFix | checks/ps2033.go:231-261 | the edits, span by span |
| AppendChain.FixGivesChain | checks/ps2033.go:226-261 | applied to the printed call they give exactly the printed chain |
| FormatSplit.SplitFormat | checks/ps2034.go:200-219 | the scan, with its builder, computes the specified split |
| FormatSplit.SplitMeans | checks/ps2034.go:193-219 | accepted exactly when every percent sign starts a bare verb; joining the segments gives the format back |
| FormatSplit.SplitOfJoin | checks/ps2034.go:200-219 | segments without percent signs are recovered from their join |
| FormatSplit.EmittedIsSprintf | checks/ps2034.go:221-273 | the emitted concatenation denotes the rendered format, parenthesized or not |
| FormatSplit.BuildFix | checks/ps2034.go:236-273 | the edits, span by span |
| FormatSplit.FixGivesExpression | checks/ps2034.go:221-273 | applied to the printed call they give exactly the emitted expression |
| FormatSplit.TextIsJoined | checks/ps2034.go:248-270 | the printed expression is the quoted segments and the arguments joined by plus signs, in parentheses where asked for |
| CallFlattening.CollectTree | checks/callchain.go:857-873 | the depth-first collection into one list |
| CallFlattening.FlattenEdits | checks/callchain.go:1077-1086 | two deletions for each collected call |
| CallFlattening.FlatteningOnText | checks/callchain.go:1077-1086 | the deletions are disjoint and inside the argument list, and leave exactly the printed flattened call if and only if nothing trails a nested argument list |
| CallFlattening.FlatteningKeepsValue | checks/callchain.go:853-856 | for an associative operation the flattened call has the nested call's value |
| CallFlattening.OthersStay | checks/callchain.go:865-869 | empty, spread and foreign calls stay as arguments |
| CallFlattening.FlatExactly | checks/callchain.go:857-873 | the flattened list holds exactly the arguments below calls of the same function that are themselves foreign, spread, empty or no call |
| ImportEdits.MarkSpecs | checks/exprutil.go:146-159 | marks, counts and records the wanted specs, and stops at an attached comment |
| ImportEdits.DropImportsEdits | checks/exprutil.go:133-178 | succeeds exactly when every wanted literal occurs and none carries a comment, with exactly the specified spans |
| ImportEdits.DropsCompose | checks/exprutil.go:129-178 | two disjoint sets of paths: no deletions overlap, and together they leave the file with exactly the other specs, texts intact |
| ImportEdits.PkgRefCount | checks/exprutil.go:15-28 | the number of qualified references to a path |
| ImportEdits.PackageRefsInSpans | checks/exprutil.go:180-203 | the number of those inside the removed spans |
| ImportEdits.LosesAllRefs | checks/exprutil.go:101-104 | comparing the counts decides whether a path loses its last reference |
| ImportEdits.PathsToDrop | checks/exprutil.go:92-107 | the listed paths that do, each once |
| ImportEdits.DeletionsKeepRequiredUses | checks/exprutil.go:215-256 | filling and emptying removedObjects decides whether everything required keeps a use |
| ImportEdits.FixReplacedCallScaffoldingPaths | checks/exprutil.go:78-127 | accepts exactly under the stated conditions, with exactly the given edits and the import deletions |
| ImportEdits.AcceptsByPositions | checks/exprutil.go:78-127 | acceptance by positions: no edit or deletion overlaps a comment, and a file that imports C drops no import |
| ImportEdits.NothingOrphaned | checks/exprutil.go:205-256 | after an accepted fix each deleted local constant keeps a use and each import used by name is still used or dropped, never both, up to imports spelt in another way |
| ImportEdits.DanglingExactly | checks/exprutil.go:92-127 | a surviving name loses its import exactly when it came from a dot import of a dropped path |
| ImportEdits.DotImportIsDropped | checks/exprutil.go:133-159 | and that happens, for every path |

## Left out

- Callbacks, closures, method receivers, selectors and interface arguments in the ordered transfer: they rest on provenance helpers that are not part of this model.
- OrderedInterpreter.CallContext.Call: a call names its possible bodies; method receivers, tuple arguments `f(g())` and the resolution of the callable are left out.
- OrderedInterpreter.AssignInOrder: right-hand sides and arguments hold no calls; each would start a fresh budget and active set there.
- Conservative transfers (`ps4008*`, `ps1006Invalidate*`) for what the ordered transfer does not answer: taken as sound oracles.
- OrderedSoundness.OrderedCallSound: variables declared inside a body have one cell for all activations, so keeping the address of a local beyond its call is not modelled.
- OrderedSoundness.BlockSound: nested returns with something behind them are excluded, because the code runs it, and so is the address of a formal, for the reasons above; results of nested returns are covered only as far as the code keeps them.
- OrderedSoundness.ResultsSound: only the order from left to right, see the choices of the model.
- AliasResolution.RetargetCoveredIff: exact for pointers that are copied or taken; values that load a pointer through a pointer are anchored in one direction only.
- OrderedInterpreter.ObjectTargetsInOrder: the source position that the lookup of a pointer's possible values is asked for.
- OrderedInterpreter.PointerTargetsInOrder: selector expressions, and the source position.
- SwitchCoverage.SwitchCovers: pointer assignments in case bodies and calls or pointer assignments in an init or tag are excluded, because the code leaves the aliases alone there; so is a case body with a continue or goto behind a possible break, a loop-level break that is not last and a continue inside a loop of the region, because the code drops or misplaces their states there.
- SwitchInterpreter.ExitStatesForStatement: select statements, type switches, labelled statements and range loops.
- SwitchInterpreter.FlowsForCaseStatement: labelled statements.
- SwitchLimits.InnerBreakCovered: one direction for given leaves, since whether a break is reached depends on them; SwitchLimits.BreakCoveredIff has both for all leaves.
- SwitchLimits.ContinueCoveredIff: a continue at the end of the list; one before effects is SwitchLimits.ContinueBeforeEffects, and one before anything else is left out.
- Construction of the control-flow graph and feasibility of edges: a given graph.
- Text of stride keys, whose derived forms are spliced without parentheses.
- Register-tile accumulator graphs and stability of tile inputs in PS1006.
- Matching of syntax, fresh names and name clashes in the rewrites; the programs before and after are modelled, not their templates, except where the fix edits spans in place.
- OuterUnroll.UnrollExactly: the memory left behind by a panic is not compared, and index arithmetic does not wrap around.
- ColumnSums.RowMajorExactly: the memory left behind by a panic is not compared.
- SlabRows.SlabShowsTheSame: the product of row count and length does not overflow, and the length is not negative (for a negative one both forms panic unless there is no row).
- AppendChain.ChainIsAppendf: how much an append grows is a parameter, so the capacity of a reallocated result is not compared.
- Repeated normalizer pipelines and other matchers of checks/callchain.go, and the guard for local variables of checks/exprutil.go: same pattern as what is modelled.
- Diagnostics, documentation texts, registry, command line and configuration.
