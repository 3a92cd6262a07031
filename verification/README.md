# Verified models of the repository's gates and shared libraries

This project models, in Dafny, the decision logic of nine parts of the repository and proves what each is relied on for.

| file | models |
|---|---|
| `Common.dfy` | optional values, distinct sequences, white space, and Python's order on strings |
| `Counters.dfy` | counters per file, their totals, and tallies of a counter by a key: the arithmetic the ratchet modules share |
| `MintLedger.dfy` | the legacy-name ratchet's ledger: which added lines are minted and which are moves |
| `VisitingOrder.dfy` | the ledger under an arbitrary order of files |
| `TreeScan.dfy` | the ratchet's scan of a tree, and the incremental scan used while a history is replayed |
| `ChangeHistory.dfy` | the change summary, for two endpoints and for a replayed history |
| `DeferredMarkers.dfy` | floor-to-deferred transitions of a file |
| `NewDeferredLines.dfy` | net-new deferred lines, and those that annotate old counted ones |
| `Gate.dfy` | the ratchet from two scans to its verdict |
| `InPlaceMarkers.dfy` | what the whole gate guarantees: no free line, and markers changed in place |
| `GuardPolarity.dfy` | the tenant-scope gate's polarity analysis of guard tests |
| `Reachability.dfy` | paths in a finite graph with cycles; shared by the two traversals below |
| `HandlerNames.dfy` | the gate's name resolution: request-derived names, bindings in effect, statement roots |
| `AdvisoryAudit.dfy` | the npm advisory traversal |
| `ScopeAllowlist.dfy` | the gate's allowlist: the check, the ratchet, and every run of accepted changes |
| `EmbeddingRegistry.dfy` | the embedding-provider cache in front of the validating constructor |
| `SettingsMerge.dfy` | organization-settings merge and diff |
| `HttpRetry.dfy` | the retry loop against any script of outcomes |
| `RecallScoring.dfy` | supersession-aware recall of a benchmark question |
| `LoggerRouting.dfy` | rerouting third-party loggers to the root, and restoring them |
| `EntityNaming.dfy` | the canonical match key of an entity name |

Code that works by updating counters, dictionaries or objects is modelled by methods and classes, each proved against a function or a relation that does not mention the loop. Pure code is modelled by functions. Iteration over a Python set or dictionary, sorted or not, is modelled by an arbitrary order where the stated result does not depend on it, and by the sorted order where it does. Counters are multisets; where the source lets a counter go below zero for a moment, the model reorders the two updates and says so. Texts, paths and identifiers are strings.

## Properties that do not hold as the source states them

Each is kept as the code has it. One lemma gives an input for which the property fails, and another states when it does hold.

- *The incremental scan equals a full scan.* True of the counted lines, their total and the exempt lines. False of the deferred attributes: they also depend on whether a decision document exists elsewhere in the tree. `TreeScan.DeferredCanGoStale` shows a stale attribute, and `TreeScan.DeferredAreStaleIff` says when there is none.
- *A guard credited with a scope key raises in every request without a scope.* `GuardPolarity.CreditedButNotRaised` gives six families that are credited although they do not, one of them a read whose fallback is truthy. `GuardPolarity.CreditIsSoundIff` gives a syntactic check that is sufficient for every test in the fragment. It is necessary too when the leaves of the test are independent (no name, read, row or opaque expression occurs twice, nor a name beside something read off it) and when opaque parts, `isinstance` and comparisons other than equality and identity may answer anything. A test such as `tenant_id != x or "a" < "b"`, which raises because of a comparison the check does not evaluate, is outside the second half. `GuardPolarity.RepeatedNameRaises` shows that independence is needed. `GuardPolarity.PlainCreditIsSound` shows that the guards the gate documents meet the check, and `GuardPolarity.IdiomCreditIff` that on them the credit is exact.
- *A floor line that only changed its marker in place is never charged.* The comment on the net-new deferred lines says that such a line is its path's own transition. It is charged when an alias line of the same text stands in the file (`InPlaceMarkers.AliasMakesItCharged`), and when the file has a deferred line of the same text in another frame whose reference sorts later (`InPlaceMarkers.OtherFrameMakesItCharged`). Both lemmas are about a tree of one file, and `InPlaceMarkers.InPlaceGate` states exactly when such a change passes.
- *The set of unscoped paths only shrinks.* The check filters the entries and then indexes them by id; the ratchet indexes first and filters afterwards. An id with a later scoped entry is therefore an exception to the check and not to the ratchet. `ScopeAllowlist.ShadowedPathIsAdded` shows a new exception passing both, and `ScopeAllowlist.GrowthIsShadowed` shows that this is the only way.
- *A listed path keeps its verdict's strength and its mutating category.* The check strips white space from the recorded verdict and category and accepts an empty verdict; the ratchet compares verbatim. `ScopeAllowlist.StrengthIsKeptIff` and `ScopeAllowlist.MutatingIsKeptIff` give the exact conditions; when they fail, a change to nothing but the path's own entries and row passes.
- *Applying a settings update twice is applying it once.* False when a section that carries nulls replaces something that is not a section at the top level: `SettingsMerge.NotIdempotent` and `SettingsMerge.IdempotentIff`.
- *The recorded diff describes the update.* True exactly when the update agrees with the store on which keys are sections: `SettingsMerge.DiffMissesALeaf` and `SettingsMerge.FaithfulIff`.
- *Resetting the loggers restores them exactly.* `addHandler` ignores a handler that is already there, so a duplicate is dropped: `LoggerRouting.RestoreCanDropADuplicate` and `LoggerRouting.ResetRestoresIff`.
- *Rerouting is idempotent.* True under one setting of the access-log switch, and across two settings exactly as `LoggerRouting.RerouteIsIdempotentIff` says; `LoggerRouting.SecondPassCanSilence` gives the case.

## Model

| member | source | states |
|---|---|---|
| `MintLedger.Spend` | scripts/legacy_name_ratchet.py:1962-1985 | spending a shared counter takes the smaller of what is wanted and what is there, text by text, and leaves the rest |
| `MintLedger.Ledger.Minted` | scripts/legacy_name_ratchet.py:1872-1985 | minted and moved lines of a file add up to its additions; an added file inherits first and is charged for the rest, an existing file is charged up to the budget; both shared counters end as the charge requires |
| `MintLedger.Record` | scripts/legacy_name_ratchet.py:2754-2767 | an entry is recorded only when there is something to record, and the total of the added files or that of the existing ones grows by exactly that |
| `MintLedger.VisitFiles` | scripts/legacy_name_ratchet.py:2738-2767 | in every file minted plus moved is what the file added, and the totals charged to added and to existing files are what the budget and pool give in that order |
| `MintLedger.ChargeChange` | scripts/legacy_name_ratchet.py:2702-2767 | for every base and head the added files are charged exactly their uninherited additions and the existing ones the rest of the budget, together per text the larger of the two; with no added file and no floor transition that is the repo-wide gain, and the moves are the smaller of all gains and all losses; nothing is charged if and only if both bounds are empty |
| `MintLedger.ChargeIsExact` | scripts/legacy_name_ratchet.py:1857-1985 | the exact charge of the added and of the existing files, for every order that visits added files first |
| `MintLedger.VisitedClosedForm` | scripts/legacy_name_ratchet.py:1962-1985 | after any prefix of the visit the budget, the pool and the charge depend only on the sums gained by added and by existing files |
| `MintLedger.OrdinaryChange` | scripts/legacy_name_ratchet.py:1857-1869 | with no added file and no transition the charge is the repo-wide gain and the moves pair gains with losses |
| `MintLedger.BudgetIsCovered` | scripts/legacy_name_ratchet.py:1857-1869 | the files of the head gained at least the budget, even after inherited lines are set aside, so a charge always finds a file |
| `MintLedger.RenamingIsFree` | scripts/legacy_name_ratchet.py:1925-1939 | a change that only moves the lines of deleted files into added ones is charged nothing |
| `MintLedger.NewFilesInheritNothing` | scripts/legacy_name_ratchet.py:1925-1946 | when nothing is deleted every line of an added file is charged, even if another file lost as many |
| `VisitingOrder.OrderIsExactIff` | scripts/legacy_name_ratchet.py:1947-1950 | in every order of visiting the files a text is charged at least the exact amount, and exactly that unless the order charges an existing file and lets an added file's uninherited lines find the budget short, both read off sums over the files visited before |
| `VisitingOrder.ChargedTracked` | scripts/legacy_name_ratchet.py:1962-1985 | what is charged beyond the added files' claims, and beyond the budget, after any files in any order |
| `VisitingOrder.LateAddedFileIsOvercharged` | scripts/legacy_name_ratchet.py:1947-1950 | an existing file visited before an added one: one gain is charged twice, and once the other way round; why added files come first |
| `TreeScan.ScanTree` | scripts/legacy_name_ratchet.py:1252-1318 | the scanning loop computes, per file, the counted, exempt and deferred lines of that file, and the counted total |
| `TreeScan.EveryLineCountsOnce` | scripts/legacy_name_ratchet.py:1302-1312 | every line of a file counts once, as a legacy line or as an exempt one |
| `TreeScan.DeferredAreCounted` | scripts/legacy_name_ratchet.py:1290-1312 | a file has at least as many counted lines of a text as deferred ones |
| `TreeScan.AnnotatingIsFree` | scripts/legacy_name_ratchet.py:1290-1312 | annotating a plain line as deferred under its own text changes no count, and notes the attribute exactly when its reference is accepted |
| `TreeScan.MalformedIsPlain` | scripts/legacy_name_ratchet.py:1278-1311 | a malformed annotation changes nothing of the scan |
| `TreeScan.ExemptingRemovesOne` | scripts/legacy_name_ratchet.py:1302-1304 | a permanent marker takes exactly one occurrence of a plain line out of the count and exempts the marked line |
| `TreeScan.UpdatedScan` | scripts/legacy_name_ratchet.py:1388-1417 | the incremental scan drops the old entries of the changed paths and adds their new ones |
| `TreeScan.PopAll` | scripts/legacy_name_ratchet.py:1399-1403 | popping the changed paths, repeated ones included, removes exactly them and returns their total |
| `TreeScan.IncrementalStep` | scripts/legacy_name_ratchet.py:1388-1417 | if two trees differ only on the given paths, updating the first one's scan gives the second one's counted lines, total and exempt lines |
| `TreeScan.ReplayMatchesFullScan` | scripts/legacy_name_ratchet.py:1822-1840 | so does updating through every commit of any history |
| `TreeScan.DeferredAreStaleIff` | scripts/legacy_name_ratchet.py:1290-1301 | the deferred attributes after an update are those of a full scan if and only if no unchanged line's decision reference became valid or invalid |
| `TreeScan.DeferredCanGoStale` | scripts/legacy_name_ratchet.py:1290-1301 | deleting a decision document leaves a stale attribute on an untouched file |
| `ChangeHistory.OnlyInsertsIff` | scripts/legacy_name_ratchet.py:1444-1457 | the test at the first mismatch succeeds if and only if one contiguous non-empty insertion turns the first text into the second |
| `ChangeHistory.Delta` | scripts/legacy_name_ratchet.py:1463-1482 | the lines one tally has beyond another, each with its file |
| `ChangeHistory.TransitionDelta` | scripts/legacy_name_ratchet.py:1463-1482 | the lost, gained and newly exempt lines of a transition |
| `ChangeHistory.Ranked` | scripts/legacy_name_ratchet.py:1686-1694 | candidates in the ranking order: the marked line's own file first, then the shortest insertion, then by path and text |
| `ChangeHistory.BeforeIff` | scripts/legacy_name_ratchet.py:1686-1694 | the ranking: the marked line's own file, then the shorter insertion, then path and text |
| `ChangeHistory.LinePools.AnnotateFrom` | scripts/legacy_name_ratchet.py:1685-1698 | a marked line takes only losses it could have been inserted into, at most as many as it occurs, and one that stays is ranked after all it took and stays only when the marked line is used up |
| `ChangeHistory.LinePools.MatchAnnotations` | scripts/legacy_name_ratchet.py:1683-1698 | the consumed losses are divided among the marked lines: each was taken by one marked line that inserts into it, no marked line takes more than it occurs, the best ranked first, and none is left that an unspent marked line could take |
| `ChangeHistory.LinePools.PullInto` | scripts/legacy_name_ratchet.py:1703-1717 | one gained line is paired with losses of its text in other files, and no others, until either side runs out, as many on one side as on the other |
| `ChangeHistory.LinePools.MatchMoves` | scripts/legacy_name_ratchet.py:1701-1718 | both pools shrink by the same number in every text, and no gained and lost line of one text in different files is left |
| `ChangeHistory.LinePools.MatchReadditions` | scripts/legacy_name_ratchet.py:1721-1729 | lines lost and gained in one file cancel exactly, and the count is what both pools lost |
| `ChangeHistory.Classify` | scripts/legacy_name_ratchet.py:1732-1744 | annotations, divided among the marked lines that took them, then moves; per text the moves are the smaller of the remaining losses and the gains; all counts are pinned |
| `ChangeHistory.TransitionSummary` | scripts/legacy_name_ratchet.py:1732-1744 | annotated is what the markers took, per text the moves are the smaller of the remaining losses and the gains, the rest was added or removed, and added less removed less annotated is the net change, in every iteration order |
| `ChangeHistory.ReplayStep` | scripts/legacy_name_ratchet.py:1832-1839 | one commit: its markers take losses of that commit, what remains joins the pools, lines lost and gained in one file cancel and are the re-additions, and the moves are per text the smaller of the losses and gains left |
| `ChangeHistory.StepBalances` | scripts/legacy_name_ratchet.py:1732-1744 | every gain of a step ends in the pool, re-added or moved, every loss in the pool, re-added, moved or annotated, none twice; and no text is left in both pools |
| `ChangeHistory.ReplayCommit` | scripts/legacy_name_ratchet.py:1826-1840 | one commit is such a step between the two scans, on the pools it finds, with the counts it reports |
| `ChangeHistory.ReplayScans` | scripts/legacy_name_ratchet.py:1819-1840 | the replay is a chain of such steps, each starting from the pools the one before left, and the reported counts are their sums |
| `ChangeHistory.ReplayBalances` | scripts/legacy_name_ratchet.py:1767-1850 | over every history each gross gain is in the pool, moved or re-added, each gross loss in the pool, moved, re-added or annotated; the pools hold per text the net change corrected for the annotations, on one side only |
| `ChangeHistory.ReplaySummary` | scripts/legacy_name_ratchet.py:1767-1850 | for every history annotated, moved and re-added are the sums over its steps; every gross gain is added or moved and every gross loss removed, moved or annotated; added less removed less annotated is the net change from base to head |
| `DeferredMarkers.Consume` | scripts/legacy_name_ratchet.py:1618-1644 | claims take from the floor lines what they take from the claiming pool, key by key, the first frames first, and stop only when one side is empty |
| `DeferredMarkers.ClaimExact` | scripts/legacy_name_ratchet.py:1610-1629 | permanent lines of the head claim floor lines of their own frame, one for one |
| `DeferredMarkers.ClaimCanonical` | scripts/legacy_name_ratchet.py:1631-1644 | the claims no frame met fall back to floor lines of the same canonical text, the first frames first; what is left per text is the floor lines beyond the permanent ones |
| `DeferredMarkers.FloorsLeft` | scripts/legacy_name_ratchet.py:1601-1644 | per frame the floor lines beyond the permanent lines of the frame are unclaimed; of these stay free, per canonical text, exactly those beyond the permanent lines of the text, those in the last frames |
| `DeferredMarkers.PairAll` | scripts/legacy_name_ratchet.py:1646-1658 | deferred lines are paired with floor lines of their frame; per frame the pairs are the smaller of the two supplies |
| `DeferredMarkers.FileTransitions` | scripts/legacy_name_ratchet.py:1587-1658 | per file and frame the excused lines are the smaller of the new deferred lines and the free floor lines, and the free ones are as above: a surviving floor line authorises nothing |
| `NewDeferredLines.Claim` | scripts/legacy_name_ratchet.py:1506-1509 | lines and pool shrink together per text, lines in the frames to skip are left alone, the first lines in order go first, and no line is left that the pool could pay for |
| `NewDeferredLines.LinesByField` | scripts/legacy_name_ratchet.py:1505-1530 | lines are sorted by canonical text, then reference, then frame |
| `Common.LessIff` | scripts/legacy_name_ratchet.py:1528-1530 | strings are sorted as Python does: a proper prefix first, else by the first character that differs |
| `NewDeferredLines.SamePathPhase` | scripts/legacy_name_ratchet.py:1496-1510 | of each file's lines exactly those survive that its own base lines do not cancel, the last in order; the base lines that cancel nothing go to the shared pool |
| `NewDeferredLines.SurvivorsAreUnique` | scripts/legacy_name_ratchet.py:1506-1509 | those conditions leave one answer |
| `NewDeferredLines.CrossPathPhase` | scripts/legacy_name_ratchet.py:1512-1537 | lines in a frame where their own file held a floor line all remain; of the others as many of each text go as the pool has, or all, the first by path and then in order |
| `NewDeferredLines.NewDeferred` | scripts/legacy_name_ratchet.py:1494-1537 | the two phases: what remains per text exactly, the lines that changed marker in place untouched, and of the others the first by path and order gone |
| `NewDeferredLines.NetNewIsUnique` | scripts/legacy_name_ratchet.py:1494-1537 | those conditions leave one answer: the net-new lines of every file |
| `NewDeferredLines.WithoutFloors` | scripts/legacy_name_ratchet.py:1494-1537 | without floor lines the net-new lines of a text are the repo-wide gain |
| `NewDeferredLines.AnnotateCounted` | scripts/legacy_name_ratchet.py:1558-1563 | per canonical text the annotations are the smaller of the new attributes and the lines available |
| `NewDeferredLines.DeferredAnnotations` | scripts/legacy_name_ratchet.py:1540-1564 | per file and canonical text the annotations are the smaller of the new attributes and the plain counted lines that disappeared; the other attributes are returned unspent |
| `Gate.Excuse` | scripts/legacy_name_ratchet.py:1661-1669 | the excused texts are the canonical texts of the replacing lines, as often as each is used |
| `Gate.ExamineFile` | scripts/legacy_name_ratchet.py:1540-1669 | a file's net-new lines become annotations, replacements of free floor lines, or neither; the free floor lines are those no permanent line claims by frame or by text |
| `Gate.NetNewRelocates` | scripts/legacy_name_ratchet.py:1512-1537 | a line whose own file held a floor line in its frame stays net-new; of the others as many of each text go as base lines are unmatched, or all |
| `Gate.RunGate` | scripts/legacy_name_ratchet.py:2580-2767 | each net-new deferred line is spent at most once, as an annotation or a replacement; a line in a frame where its own file held a floor line is never taken for a relocated one; everything gained beyond the excused texts is minted or moved; added files are charged their uninherited additions and existing ones the rest of the budget; nothing is charged if and only if both bounds are empty |
| `InPlaceMarkers.NoFreeLine` | scripts/legacy_name_ratchet.py:2580-2767 | every line the repo gains of a text is charged, or a floor line of that text gave way to it in a file |
| `InPlaceMarkers.ExcusedWithin` | scripts/legacy_name_ratchet.py:1587-1669 | what is excused in a file is covered by floor lines of the same text beyond the permanent lines still there |
| `InPlaceMarkers.FileIsFreeIff` | scripts/legacy_name_ratchet.py:1494-1669 | the new markers of a file are all excused if and only if the lines its own deferred lines leave fill the changed frames and no alias line has a changed text, whatever other files' lines cancel beside them |
| `InPlaceMarkers.InPlaceGate` | scripts/legacy_name_ratchet.py:2580-2767 | a change that turns floor markers into deferred ones in place, and may also relocate deferred lines between existing files, is charged nothing if and only if that holds in every file |
| `InPlaceMarkers.PlainFileIsClean` | scripts/legacy_name_ratchet.py:1512-1518 | it holds when no deferred line of the base and no alias line of the file has the text of a changed line |
| `InPlaceMarkers.AliasMakesItCharged` | scripts/legacy_name_ratchet.py:1610-1629 | a tree of one file, changed in place, that fails the condition of the gate because of an alias line of the same text |
| `InPlaceMarkers.OtherFrameMakesItCharged` | scripts/legacy_name_ratchet.py:1505-1509 | the same because of a deferred line of the same text in another frame that sorts later |
| `GuardPolarity.FlippingIsLighter` | scripts/tenant_scope_gate.py:1316-1333 | the rewriting of a negated connective terminates: it lowers a weight although it grows the term |
| `GuardPolarity.FlippingKeepsMeaning` | scripts/tenant_scope_gate.py:1316-1333 | the rewriting does not change the value of the test in any request |
| `GuardPolarity.FiresIff` | scripts/tenant_scope_gate.py:1264-1355 | the syntactic check guarantees a truth value in every request without a scope, for every test of the fragment; it decides it for tests with independent leaves, when opaque parts, `isinstance` and comparisons other than equality and identity may answer anything |
| `GuardPolarity.CreditCarries` | scripts/tenant_scope_gate.py:1298-1333 | if the credited leaves of a test are sound so is the whole test, under any nesting of connectives and negations |
| `GuardPolarity.CreditIsSoundIff` | scripts/tenant_scope_gate.py:1264-1355 | a credited test is true in every request without a scope if the syntactic check succeeds, and, when its leaves are independent and opaque parts, `isinstance` and comparisons other than equality and identity may answer anything, only if |
| `GuardPolarity.RepeatedNameRaises` | scripts/tenant_scope_gate.py:1334-1352 | a credited test in which a local occurs twice and which always raises although the check fails |
| `GuardPolarity.PlainCreditIsSound` | scripts/tenant_scope_gate.py:1264-1397 | a test built from scope reads, `isinstance` of reads, `is None`, row comparisons and opaque conditions, with no negation or comparison under a negation, is true in every request without a scope once it is credited with any key |
| `GuardPolarity.ScopeIff` | scripts/tenant_scope_gate.py:1361-1397 | scopes are parameters, aliases and the two binding keys read off the request, and nothing else |
| `GuardPolarity.TruthyIff` | scripts/tenant_scope_gate.py:1264-1286 | None, the empty string and False are the falsy values |
| `GuardPolarity.MentionedIff` | scripts/tenant_scope_gate.py:1361-1397 | a key is mentioned if and only if a parameter, an alias or a read off the request of that key occurs |
| `GuardPolarity.IdiomCreditIff` | scripts/tenant_scope_gate.py:1264-1355 | on the documented guards, with conditions about other things left open and independent, a scope is credited if and only if its absence raises in every request |
| `GuardPolarity.CheckedKeyIsCredited` | scripts/tenant_scope_gate.py:1298-1352 | a negative check on a scope, alone, under `or` or under a negated `and`, credits the key of that scope whatever stands beside it |
| `GuardPolarity.AndCreditsEveryPart` | scripts/tenant_scope_gate.py:1301-1314 | an `and` that is credited is credited with the keys of every part |
| `GuardPolarity.CreditIsMentioned` | scripts/tenant_scope_gate.py:1264-1355 | only keys of scopes that occur in the test are credited |
| `GuardPolarity.NeverCredited` | scripts/tenant_scope_gate.py:1334-1355 | bare tests, order comparisons, equality with anything but None or the empty string, and inequality with those are not credited |
| `GuardPolarity.CreditedButNotRaised` | scripts/tenant_scope_gate.py:1316-1355 | six families of credited tests that do not always raise, among them a read with a truthy fallback |
| `HandlerNames.SplitSeeds` | scripts/tenant_scope_gate.py:1418-1441 | the names bound to the request body, and the remaining assignments |
| `HandlerNames.Pass` | scripts/tenant_scope_gate.py:1442-1464 | one pass stays within every closed set, and either adds a name or finds the set closed |
| `HandlerNames.RequestDerivedNames` | scripts/tenant_scope_gate.py:1418-1465 | the result is the least set holding the request-body bindings and closed under subscript, `get` and `pop`, and a name is in it if and only if an assignment puts it there; the passes are at most one more than the assignments |
| `HandlerNames.DerivedIff` | scripts/tenant_scope_gate.py:1418-1465 | a name is in the least set if and only if some assignment gives it the body or something read off a name of the set |
| `HandlerNames.OrderIsIrrelevant` | scripts/tenant_scope_gate.py:1418-1465 | the result does not depend on the order or repetition of the assignments |
| `HandlerNames.BindingsInEffect` | scripts/tenant_scope_gate.py:1237-1261 | a name holds the scope key of its last binding above the line; one rebound to something else, or bound only later, holds none |
| `HandlerNames.StatementRoots` | scripts/tenant_scope_gate.py:625-655 | the unassigned names in the result are exactly those reached through any chain of local assignments, self-referential and cyclic ones included, and nothing unreachable is in it |
| `HandlerNames.OriginRoots` | scripts/tenant_scope_gate.py:640-655 | the same for one assigned name, over all values assigned to it |
| `HandlerNames.IsUpdateStatement` | scripts/tenant_scope_gate.py:658-672 | when no builder's name is assigned locally: reported if and only if the chain can start from an update builder or from no insert builder; otherwise still, what can start from an unassigned update builder is reported, and what is not reported can start from an insert builder |
| `Reachability.ReachUnfolds` | scripts/audit_npm_dependencies.py:55-75 | reaching from a node is being there or reaching from a successor without coming back: why a visited set per path loses nothing |
| `AdvisoryAudit.Below` | scripts/audit_npm_dependencies.py:55-75 | what a package's `via` entries contribute, one at a time, is what is reachable below it |
| `AdvisoryAudit.Visit` | scripts/audit_npm_dependencies.py:55-75 | a visit succeeds if and only if every package reached is well formed, and then returns exactly the high or critical advisories attached to packages reached, on every graph |
| `AdvisoryAudit.Advisories` | scripts/audit_npm_dependencies.py:48-84 | the audit succeeds if and only if every high finding is explained, and then returns exactly the advisories reachable from high findings |
| `ScopeAllowlist.IndexById` | scripts/tenant_scope_gate.py:1523-1550 | rows are indexed verbatim if and only if no id repeats; otherwise every repeated id, and no other, is named |
| `ScopeAllowlist.Check` | scripts/tenant_scope_gate.py:1654-1726 | the errors are exactly the unlisted, stale, changed, uncategorised, untracked and unknown rows and the unsafe grants |
| `ScopeAllowlist.Ratchet` | scripts/tenant_scope_gate.py:1821-1972 | each of the three errors is reported if and only if a live exception is new, weakened or relabelled, and names exactly those paths; no error if and only if there is none |
| `ScopeAllowlist.VerdictsAreRanked` | scripts/tenant_scope_gate.py:1923-1934 | the three verdicts as written, and their order of strength |
| `ScopeAllowlist.MissingCategoryIsNoRelabelling` | scripts/tenant_scope_gate.py:1951-1956 | a category that is gone is left to the check |
| `ScopeAllowlist.GrowthIsShadowed` | scripts/tenant_scope_gate.py:1836-1840 | an accepted change adds exactly the paths whose id a later scoped entry shadows |
| `ScopeAllowlist.StepShrinks` | scripts/tenant_scope_gate.py:1821-1972 | with nothing shadowed an accepted change adds no unscoped path |
| `ScopeAllowlist.UniqueIdentsAreNotShadowed` | scripts/tenant_scope_gate.py:1503-1510 | with one entry per id nothing is shadowed |
| `ScopeAllowlist.ShadowedPathIsAdded` | scripts/tenant_scope_gate.py:1836-1840 | a new unscoped path can pass both gates |
| `ScopeAllowlist.StepKeepsStrength` | scripts/tenant_scope_gate.py:1923-1934 | an accepted change does not weaken a path whose recorded verdict is comparable |
| `ScopeAllowlist.StrengthIsKeptIff` | scripts/tenant_scope_gate.py:1923-1934 | if the recorded verdict is comparable, or there is nothing to lose, no accepted change weakens the path; if not, one that replaces only the verdicts of the path's own entries and its row does |
| `ScopeAllowlist.StepKeepsMutating` | scripts/tenant_scope_gate.py:1951-1956 | an accepted change keeps a verbatim mutating category |
| `ScopeAllowlist.MutatingIsKeptIff` | scripts/tenant_scope_gate.py:1951-1956 | if its category is written verbatim every accepted change keeps the path mutating; if not, one that replaces its row, and gives its entries the verdict they already resolve to, does not |
| `ScopeAllowlist.RunShrinks` | scripts/tenant_scope_gate.py:1654-1972 | over every run the set of unscoped paths only shrinks, so none comes back |
| `ScopeAllowlist.RunKeepsStrength` | scripts/tenant_scope_gate.py:1654-1972 | over every run a surviving path's verdict never gets weaker |
| `ScopeAllowlist.RunKeepsMutating` | scripts/tenant_scope_gate.py:1654-1972 | over every run a mutating entry stays mutating until it leaves the list |
| `ScopeAllowlist.EveryTreeCanBeListed` | scripts/tenant_scope_gate.py:1654-1726 | for whatever paths a tree has, some allowlist passes the check |
| `ScopeAllowlist.StandingStillPasses` | scripts/tenant_scope_gate.py:1821-1972 | changing nothing passes both gates |
| `ScopeAllowlist.ScopingPasses` | scripts/tenant_scope_gate.py:1821-1972 | scoping a path and dropping its row passes both gates |
| `EmbeddingRegistry.Registry.MoveToEnd` | common/embedding/_registry.py:129-132 | a hit makes its key the most recent one and changes nothing else |
| `EmbeddingRegistry.Registry.GetOrCreate` | common/embedding/_registry.py:96-158 | the cached provider, or a new one of the requested configuration; the order is the recency order; a full cache evicts the least recently used provider and no other; every provider made is accounted for |
| `EmbeddingRegistry.Registry.Insert` | common/embedding/_registry.py:133-141 | a new provider of the requested configuration becomes the most recent entry |
| `EmbeddingRegistry.Registry.EvictOldest` | common/embedding/_registry.py:142-156 | the oldest entry leaves the cache for the evicted list |
| `EmbeddingRegistry.Registry.GetEmbeddingProvider` | common/embedding/_registry.py:207-392 | in every reachable cache state the answer, configuration or rejection, is that of the registry without a cache, although a hit skips the structural checks; a configured answer serves its key, with the eviction that takes, and nothing else touches the cache |
| `EmbeddingRegistry.Registry.Serve` | common/embedding/_registry.py:96-392 | any trace of requests to an empty registry: every answer is the cache-free one, and the cache ends with exactly the at most 256 most recently used distinct valid keys, in recency order |
| `EmbeddingRegistry.MadeIsInOnePlace` | common/embedding/_registry.py:129-156 | a provider made is in the cache or evicted, not both, and not twice |
| `EmbeddingRegistry.CacheHoldsMostRecent` | common/embedding/_registry.py:121-158 | after any trace of valid requests the cache holds exactly the at most 256 most recently used distinct keys, in recency order |
| `EmbeddingRegistry.RecencyFacts` | common/embedding/_registry.py:66-93 | the reference order lists every key of a trace once |
| `EmbeddingRegistry.RecencyIsByLastUse` | common/embedding/_registry.py:66-93 | of two keys the later in the order was used after the last use of the earlier |
| `EmbeddingRegistry.SelfHostedIsSeparate` | common/embedding/_registry.py:207-212 | with a base URL the answer depends neither on the tenant nor on the hosted key; the key is the endpoint's token or the placeholder, the model that of the environment or the default |
| `EmbeddingRegistry.HostedIsSeparate` | common/embedding/_registry.py:209-255 | without a base URL the answer depends neither on the endpoint's token nor on the environment's model |
| `EmbeddingRegistry.TenantOverrides` | common/embedding/_registry.py:165-176 | without a base URL the tenant's key replaces the environment's and the tenant's model the default |
| `EmbeddingRegistry.NothingToOverride` | common/embedding/_registry.py:165-176 | a tenant without overrides is answered like a request without a tenant |
| `EmbeddingRegistry.NoCredentialIff` | common/embedding/_registry.py:215-246 | the platform answers, or nothing does, exactly when there is no base URL, tenant key or environment key |
| `EmbeddingRegistry.ConfiguredIff` | common/embedding/_registry.py:207-392 | a client is configured if and only if there is a credential, dimensions are sent to hosted OpenAI alone, and vectors are cut to 1024 or not at all |
| `EmbeddingRegistry.MalformedFirst` | common/embedding/_registry.py:256-392 | each rejection with its exact condition: a value that cannot be parsed comes before any combination |
| `SettingsMerge.MergeSettingsUpdate` | common/organization_settings_merge.py:31-62 | null deletes, sections merge, anything else overwrites, in every iteration order |
| `SettingsMerge.StoreIsNullFree` | common/organization_settings_merge.py:31-62 | no sequence of updates ever stores a null |
| `SettingsMerge.IdempotentIff` | common/organization_settings_merge.py:31-62 | twice is once if and only if the store is a section, or the update is not, or the update carries no null |
| `SettingsMerge.NotIdempotent` | common/organization_settings_merge.py:49-54 | a null in a section that replaces a leaf is stored once and deleted the second time |
| `SettingsMerge.MergesAgreeIff` | common/organization_settings_merge.py:15-62 | the write path and the display merge agree if and only if the update carries no null |
| `SettingsMerge.DiffSettings` | common/organization_settings_merge.py:65-89 | a path is recorded if and only if the update has a leaf or null there that differs from the stored value, with that old and new value |
| `SettingsMerge.FaithfulIff` | common/organization_settings_merge.py:31-89 | writing the diff over the flat store gives the flat updated store at every path if and only if the update agrees with the store |
| `SettingsMerge.DiffMissesALeaf` | common/organization_settings_merge.py:65-89 | overwriting a section with a leaf deletes leaves the diff does not record |
| `SettingsMerge.DiffUndoes` | common/organization_settings_merge.py:65-89 | writing the old values back restores the flat store |
| `HttpRetry.JitteredDelay` | common/http_retry.py:89-95 | a pause is between 0.9 and 1.1 of the exponential one, or the cap of two seconds |
| `HttpRetry.PausesDouble` | common/http_retry.py:89-95 | without jitter the first pause is a fifth of a second and each next one twice as long, up to the cap |
| `HttpRetry.SleptGeometric` | common/http_retry.py:89-95 | all pauses add up to at most the jittered geometric sum |
| `HttpRetry.SleptAtMost` | common/http_retry.py:58-95 | all pauses add up to at most the cap each, whatever the jitter |
| `HttpRetry.RetriedUnsent` | common/http_retry.py:202-221 | when only connection-phase failures are retried, no retried call sent a request |
| `HttpRetry.RetriedSends` | common/http_retry.py:98-199 | the retried calls sent fewer requests than the attempt budget |
| `HttpRetry.WithRetry` | common/http_retry.py:98-199 | for every script the loop retries every outcome named as transient while its budget lasts, and only those; it stops at the first other outcome and hands it on; calls stay within the larger budget, requests sent within the attempt budget; it falls through only with no budget at all |
| `HttpRetry.WithConnectPhaseRetry` | common/http_retry.py:202-221 | at most 5 calls, at most one request sent and that in the last call, at most 3.3 seconds asleep |
| `HttpRetry.WithDefaultRetry` | common/http_retry.py:54-199 | the default policy: at most three calls and 0.66 seconds asleep, and every transient outcome before the last call is retried |
| `RecallScoring.ChainReaches` | benchmark/regression_sample/compare_to_baseline.py:114-132 | true if and only if some target is reached in one or more steps, on cyclic pointers too |
| `RecallScoring.CycleRepeats` | benchmark/regression_sample/compare_to_baseline.py:114-132 | a chain that comes back visits nothing new from its first step on |
| `RecallScoring.Pointed` | benchmark/regression_sample/compare_to_baseline.py:160-164 | a memory has a pointer if and only if some row gives it one, and the last such row decides, retrieved rows coming after stored ones |
| `RecallScoring.CreditFrom` | benchmark/regression_sample/compare_to_baseline.py:191-200 | the first retrieved memory that supersedes a stored copy of the gold, if there is one |
| `RecallScoring.CreditsIff` | benchmark/regression_sample/compare_to_baseline.py:114-132 | when no two rows of a memory disagree, it credits a gold if and only if a chain of rows leads from it to a stored copy |
| `RecallScoring.ScoreGold` | benchmark/regression_sample/compare_to_baseline.py:176-204 | a gold is retrieved, or missing, or retired and credited to the first superseding memory, or retired and lost |
| `RecallScoring.CreditedIff` | benchmark/regression_sample/compare_to_baseline.py:184-204 | a gold that was not retrieved and whose copies are all outdated or conflicted is credited if and only if such a chain starts at a retrieved memory, and lost otherwise |
| `RecallScoring.DirectCredit` | benchmark/regression_sample/compare_to_baseline.py:191-204 | a retrieved memory that supersedes a stored copy credits the gold |
| `RecallScoring.ActiveCopyIsMissing` | benchmark/regression_sample/compare_to_baseline.py:184-189 | an active copy that was not retrieved is a plain miss |
| `RecallScoring.ScoreQuestion` | benchmark/regression_sample/compare_to_baseline.py:135-209 | every distinct gold is scored once, in order; recall is the satisfied share, and absent without golds; degraded says that there was no status data |
| `RecallScoring.FirstsAreExact` | benchmark/regression_sample/compare_to_baseline.py:143-143 | the golds scored are the given ones, each once |
| `RecallScoring.FirstsOfPrefix` | benchmark/regression_sample/compare_to_baseline.py:143-143 | the golds come in the order of their first occurrence |
| `RecallScoring.RecallExtremes` | benchmark/regression_sample/compare_to_baseline.py:206-209 | recall is 1 when every gold was retrieved or credited, and only then; 0 when every gold is missing or lost, and only then |
| `RecallScoring.OutcomeIsUnique` | benchmark/regression_sample/compare_to_baseline.py:176-204 | a gold has one outcome |
| `RecallScoring.RecallIsBracketed` | benchmark/regression_sample/compare_to_baseline.py:135-209 | legacy recall is at most supersession-aware recall, which is at most 1, and the gap is the credited share |
| `LoggerRouting.Logging.RerouteLogger` | common/structlog_config.py:712-801 | one logger is skipped, silenced, left alone or stripped and snapshot, and no other logger changes |
| `LoggerRouting.Logging.Reroute` | common/structlog_config.py:698-801 | all listed loggers, and only those, take one such step |
| `LoggerRouting.Logging.RestoreLogger` | common/structlog_config.py:880-891 | handlers re-added one by one to a stripped logger, propagate and level set back |
| `LoggerRouting.Logging.Reset` | common/structlog_config.py:880-892 | every snapshot logger is restored, in any order, and the snapshot is empty |
| `LoggerRouting.Logging.Run` | common/structlog_config.py:698-892 | any interleaving of reroutes and resets takes every logger through the steps the results below are about |
| `LoggerRouting.UnlistedIsUntouched` | common/structlog_config.py:712-712 | no run touches a logger that is not listed |
| `LoggerRouting.RunIsRecoverable` | common/structlog_config.py:698-892 | over every interleaving a listed logger is untouched, or as a reset leaves it, or stripped with its original state in the snapshot |
| `LoggerRouting.ResetRestoresIff` | common/structlog_config.py:880-892 | a reset after any run with a reroute restores a listed logger exactly if and only if its handlers were distinct |
| `LoggerRouting.RestoreCanDropADuplicate` | common/structlog_config.py:886-889 | a logger holding one handler twice gets it back once |
| `LoggerRouting.RerouteIsIdempotentIff` | common/structlog_config.py:723-774 | a second pass changes nothing unless the access line was switched off in between and the first pass had nothing to do |
| `LoggerRouting.SecondPassCanSilence` | common/structlog_config.py:747-757 | a second pass with the line switched off silences an access logger the first pass left alone |
| `LoggerRouting.RecordsReachTheRoot` | common/structlog_config.py:698-801 | after any run ending in a reroute the records of a listed logger reach the root handlers and no others; those of the access logger reach nothing exactly when the line is off |
| `LoggerRouting.PassesOn` | common/structlog_config.py:775-801 | after any run ending in a reroute a listed logger has no handlers of its own and propagates, the access logger as its switch says; its level is cleared exactly when it had handlers and propagates |
| `EntityNaming.CanonicalMatchKey` | common/entity_naming.py:60-73 | the key is the words of the name without the leading qualifiers that may go, joined by blanks |
| `EntityNaming.NormalizeIsTidy` | common/entity_naming.py:55-57 | the normal form has no capitals, no white space but single inner blanks, and the words of the name |
| `Common.SpaceIff` | common/entity_naming.py:55-57 | the 29 characters that count as white space |
| `EntityNaming.LowerIff` | common/entity_naming.py:55-57 | lower-casing identifies the two cases of a letter and nothing else |
| `EntityNaming.TokensAreWords` | common/entity_naming.py:55-67 | splitting the normal form gives the words, or one empty token when there are none |
| `EntityNaming.BareIff` | common/entity_naming.py:68-73 | the stripped tokens are the one suffix that drops only qualifiers, leaves two tokens, and cannot drop more |
| `EntityNaming.KeyIsIdempotent` | common/entity_naming.py:60-73 | the key of a key is the key; it is its own normal form; stripping leaves at least two words |
| `EntityNaming.KeyHasNoCapital` | common/entity_naming.py:55-73 | no capital letter is left in a key |
| `EntityNaming.CaseIsIgnored` | common/entity_naming.py:9-17 | names that differ only in case have one key |
| `EntityNaming.SameKeyIff` | common/entity_naming.py:9-17 | two names are one entity if and only if their stripped words agree |
| `EntityNaming.QualifiersAreIgnoredIff` | common/entity_naming.py:9-32 | a run of qualifiers before a name leaves its key unchanged if and only if the name has two words, or the run is empty |

## Left out

- Regular expressions of the ratchet (markers, comment suffixes, decision references): lines arrive classified, with canonical text and frame.
- git calls, the fallbacks of the change summary when history is missing, the release-pull-request branch, and all report printing.
- The list of deferred-marker problems a scan also returns: it is a message list.
- DeferredMarkers.FileTransitions: which of several floor lines of one frame is claimed or paired is left open, because no total depends on it.
- InPlaceMarkers.InPlaceGate: lines relocated into added files are not among its changes, because an added file is charged for whatever deleted files do not pay for.
- HandlerNames.IsUpdateStatement: with a builder's name assigned locally the answer is bounded from both sides and not decided, because whether such a name is a root depends on which simple chain of assignments first closes a cycle at it.
- FastAPI route walking, signature inspection, column types and file parsing in the tenant gate: the model takes tests, assignments, entries and rows.
- GuardPolarity.Rejected: subscript reads, and `get` with a fallback that is not a literal, are not among the modelled reads; other expressions are opaque.
- ScopeAllowlist.Ratchet: the messages, the pre-existing-debt notice and the base-reference lookup are not modelled.
- EntityNaming.NormalizeIsTidy: lower-casing is that of ASCII letters, because Python's full case mapping is a table that can turn one letter into several and depends on its neighbours.
- Embedding registry: the OpenAI client, the platform singleton, the local-provider cache, parsing of environment values, concurrent misses, and the closing task of an evicted provider (an evicted provider is put on a list).
- Settings: masking of secrets and dotted path strings; a path is a sequence of keys, and a list value is a leaf.
- HTTP, asyncio and logging in the retry module; jitter is any factor between 0.9 and 1.1, and times are real numbers.
- RecallScoring.ScoreQuestion: the judge's verdict and the question's labels are not modelled, and recall is a real number rather than a float; category aggregates are left out.
- LoggerRouting: the structlog processors, the root handlers that the module installs and removes, and changes made to a logger by other code between steps.
- Entity names: bracketed qualifiers and identifier signatures, which are regular-expression matches compared as sets.
- Settings encryption, settings version strings, constants, provider names, prompts, and the benchmark and smoke scripts other than the recall scorer.
