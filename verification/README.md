# OpenBao compatibility tooling: a verified model

The crate's releases are backed by Python tools under `scripts/` that extract evidence from
documentation, OpenAPI and result records. This project models the logic of those tools in Dafny and
proves what they promise, over all inputs, all runs and all interleavings.

| Module | What it models |
|---|---|
| `Text`, `Sorting`, `Versions` | splitting and joining texts, Python's `sorted`, release versions |
| `DocLines`, `Outline`, `DocTree`, `DocFields`, `DocParser`, `DocExtract`, `DocMeaning` | the section-aware documentation parser: fences, heading stack and section tree, endpoint tables, attribution of field rows, the expansion budget, canonical order and re-validation |
| `Relay` | the TLS relay as a shared object with critical sections, and as a step machine over its handler threads |
| `Ranges`, `Registries`, `Contracts`, `ContractMeaning` | the capability registry: run-length compressed version ranges, lookup, building, validation, the contract matrix and its validator |
| `Patches`, `MinorRelease`, `Merge`, `Chain`, `RegistryMeaning` | growing a registry: patch insertion and extension, a minor release, the two-branch merge, and the whole chain of candidates from the active registry |
| `SchemaFields`, `PathVariants`, `RouteMatch`, `SchemaMeaning`, `RouteMeaning` | OpenAPI reconciliation: the depth-limited schema resolver, optional path segments, best-score route selection |
| `StageProgress`, `StageSession`, `StageMeaning` | recognisers of ordered stage labels in a byte stream cut at arbitrary places, and the partial-write loops beside them |
| `CiMatrix`, `CiAggregate`, `CiMeaning` | the representative release profile, result records, the aggregate report with its exit code and its separate validator |

Code that changes state step by step is a class or a method with loops, proved against a
specification function or predicate; lemmas then prove what the source promises about that
specification. The modules called `…Meaning` then say what those functions answer without using
them: as relations on positions, derivations, sizes of sets and literal texts, so that a result is
tied to the source's words and numbers and not only to another function of the model. No lemma relies on automatic induction: each carries `{:induction false}` and
proves its own steps. Exceptions are a false flag or `None`. The fixed inventories (25 releases, 691 or
707 operations) are arbitrary ascending version lists and arbitrary many operations.

## What the proofs found

- Relay: the deadline timer starts outside the `try` whose `finally` returns the permit
  (scripts/consistency_tls_relay.py:104-116). A permit is lost exactly when that start fails
  (`LeakedExactly`, `PermitsBackIff`). `LeaksHappen` gives the runs: one failure leaves three
  permits for good, four shut the relay (`LeakAndExhaustion`). Nothing else is ever lost: from
  every reachable state the relay drains to exactly the leaked permits missing (`EveryRunDrains`).
- `Progress.feed` accepts every chunking coarser than an accepted one, but not every finer one:
  the limit on the unfinished line is checked only after a read (`FinerMayBeRejected`).
- `Session.finish` does not look at what is left unread: surplus or foreign markers after the last
  stage do not change its verdict (`LaterIgnored`, with an instance in `SurplusAccepted`).
  `Announced` therefore asks that the stages come first among the markers, not that they are all
  of them.
- `path_variants` is not the set of keep-or-drop choices in general: dropping one group can bring
  another about (`NestedCounterexample`); `KeepOrDropIff` says exactly when it is.
- The evidence rules of `build_registry` and the validator of the same file differ in one state, a
  profile security block on a route that only the corrected 2.5.5 contract documents. Built ranges
  are accepted exactly when no such block exists (`BuildRanges`); `CorrectedBlockRefused` is an
  input where one does. The shipped block table has none, so every list built with it is accepted
  (`BuildShippedRanges`).
- The steps that append a release keep every other release's matches in any parent
  (`AppendPatch`). They do not check that the new release was unmatched: it is matched once
  exactly when it was (`AppendOnceIff`), which a well-formed parent ensures; `MatchedTwice` is a
  parent that passes the step and ends with two matches. The merge behaves alike: on an added
  release it agrees with the right branch exactly when the left branch leaves it unmatched
  (`JoinedAgrees`).
- In the chain from an active registry that lists 2.5.5, but not as its last release, only the
  minor step can refuse: after it both insertions, both appends and the merge go through
  (`CandidateChain`).
- `resolve_schema` without a depth mark in its result is exactly the unlimited resolver, and with
  one it never is (`DepthMarkIff`).
- `build_matrix` on a validated registry with passing evidence fails only when some release offers
  no operation at all, where its coverage percentage would divide by zero, or when a fixture hash
  is no digest, which only its own validator looks at (`BuildMatrix`).
- `aggregate` and its validator count a failure with an unknown class differently. Such a report is
  always refused, so it never becomes a false pass; with the shared table of reasons it cannot
  arise (`SidesAgree`, `GoodReasonsIff`, `SharedTableReliable`).

## Model

| member | source | states |
|---|---|---|
| DocLines.Endpoints | scripts/openbao_documentation_v2.py:33-63 | the loop computes the endpoints of a section's tables, which the rows of `DocMeaning` characterise by positions, or refuses exactly when a line met inside a table is no sound row or more than 4096 endpoints result |
| DocLines.StripTwice | scripts/openbao_documentation_v2.py:100-110 | removing fence lines and fenced lines leaves a text with no fence at all, so removal is complete and idempotent |
| Outline.NearestBelow | scripts/openbao_documentation_v2.py:114-117 | the parent of a heading: the last earlier heading of a smaller level, with nothing but deeper or equal ones between |
| Outline.PopSpine | scripts/openbao_documentation_v2.py:114-115 | popping a heading that is too deep never pops the root and does not change which heading the new one hangs below |
| Outline.KidsStep | scripts/openbao_documentation_v2.py:116-119 | a new heading is added as the last child of its nearest smaller predecessor and of nothing else |
| DocTree.Unwind | scripts/openbao_documentation_v2.py:114-115 | after the pops the top of the stack is the nearest earlier section of a smaller level |
| DocTree.Attach | scripts/openbao_documentation_v2.py:116-119 | one child appended to one object turns the section tree of a text into that of the text with the heading added |
| DocTree.AddLine | scripts/openbao_documentation_v2.py:122-123 | a plain line goes to the newest section and leaves the rest of the tree alone |
| DocTree.BuildSections | scripts/openbao_documentation_v2.py:97-125 | succeeds exactly when the last fence is closed, all titles outside fences are valid and there are at most 8192 sections; the sections are then the parts of the text outside fences, in order, each holding exactly its children in heading order |
| Outline.PreorderIsHeadingOrder | scripts/openbao_documentation_v2.py:97-123 | the preorder of the whole section tree is heading order |
| Outline.WalkIsScan | scripts/openbao_documentation_v2.py:129-148 | the recursive walk that skips stopping children visits exactly the nodes from which it can be reached upwards, in heading order |
| Outline.WalkIsOwned | scripts/openbao_documentation_v2.py:141-148 | from a section with endpoints the recursion visits exactly the sections whose nearest section with endpoints it is, in heading order |
| DocFields.OwnFields | scripts/openbao_documentation_v2.py:131-140 | a section's own rows: refused exactly for an unsound row or more than 1024 rows |
| DocFields.FromChildren | scripts/openbao_documentation_v2.py:141-148 | adds the rows below the children without endpoints, in order; refused exactly for an invalid section name, an unsound row or a total above the limit |
| DocFields.FieldsFor | scripts/openbao_documentation_v2.py:129-148 | over the object tree, with early limit checks at every level: refused exactly when the whole subtree up to the next endpoints breaks a limit |
| DocParser.CollectedIsOwned | scripts/openbao_documentation_v2.py:141-154 | the fields collected for an endpoint section are exactly the rows whose nearest endpoint section it is, in document order, its own under the name body |
| DocParser.EveryRowOnce | scripts/openbao_documentation_v2.py:129-163 | the numbers of rows given to the endpoint sections add up to the number of rows below some endpoint section: none lost, none given twice |
| DocParser.ExpansionBudget.Take | scripts/openbao_documentation_v2.py:66-75 | takes both amounts or, when either exceeds what is left, nothing |
| DocParser.SectionCost | scripts/openbao_documentation_v2.py:154-160 | what a section's operations cost is its field count times its endpoint count, the amount charged |
| DocParser.Produce | scripts/openbao_documentation_v2.py:150-163 | succeeds exactly when all endpoint sections are within their limits and the budget covers the total; deducts exactly the operations and fields produced, and its own count check never fires |
| DocParser.Parse | scripts/openbao_documentation_v2.py:92-163 | accepts exactly the texts within every limit that the budget can pay for; returns their operations in heading order and deducts exactly their number and their fields |
| DocParser.FencesInert | scripts/openbao_documentation_v2.py:100-125 | a text is readable if and only if its fences are closed and the text without fences is readable, and both mean the same operations |
| DocExtract.ListOrder | scripts/openbao_documentation_v2.py:78-79 | identities are strictly and totally ordered |
| DocExtract.CanonicalOperations | scripts/openbao_documentation_v2.py:82-89 | refused exactly when one identity stands for two different operations; otherwise the same set of operations, in strict identity order |
| DocExtract.CanonUnique | scripts/openbao_documentation_v2.py:82-89 | the canonical form depends only on the set of operations, not on their order or repetition |
| DocExtract.Validate | scripts/openbao_documentation_v2.py:184-191 | accepts exactly the strictly ordered lists a fresh budget can pay for |
| DocExtract.CanonFits | scripts/openbao_documentation_v2.py:166-191 | canonicalising never costs more: what met the shared budget meets a fresh one |
| DocExtract.Extract | scripts/openbao_documentation_v2.py:166-191 | over all files and one budget: succeeds exactly when every file is readable, the totals are within the limits and no identity conflicts; the count check and the final validation never refuse |
| DocMeaning.FencesMean | scripts/openbao_documentation_v2.py:100-110 | the fenced blocks, by positions: where each opens and the first bare line of its mark and at least its length that closes it; removal keeps exactly the lines outside them, and a text ends inside a fence exactly when the last block has no closing line |
| DocMeaning.TableRowsMean | scripts/openbao_documentation_v2.py:33-63 | a line is inside a table exactly when some earlier header has only table lines between; the endpoints are exactly those of the rows there, in line order and then method order, each path its own when it starts with a slash and otherwise after one |
| DocMeaning.TableMeans | scripts/openbao_documentation_v2.py:33-63 | a section is refused exactly when a line inside a table is no sound row, by literal method names, lengths and characters, or the limit of 4096 is exceeded |
| DocMeaning.PartsMean | scripts/openbao_documentation_v2.py:111-123 | the parts are the stretches between consecutive headings, with the heading of each |
| DocMeaning.BearerMeans | scripts/openbao_documentation_v2.py:114-148 | whose fields a section's rows are, by levels alone: those of the section with endpoints it stands in, when it stands in no later one with endpoints |
| DocMeaning.FieldsOfMean | scripts/openbao_documentation_v2.py:129-148 | the fields of an endpoint section are the field rows of those sections, in document order, its own under the name body and the others under their own |
| DocMeaning.OpsMean | scripts/openbao_documentation_v2.py:150-163 | the operations are, section by section and endpoint by endpoint, those of the tables with the fields of the section |
| DocMeaning.ReadableMeans | scripts/openbao_documentation_v2.py:92-154 | which texts are readable, in literal limits |
| DocMeaning.CostIs | scripts/openbao_documentation_v2.py:150-163 | the field amount charged is the number of fields of all operations |
| DocMeaning.Utf8Is | scripts/openbao_api_snapshots.py:558-563 | the measured length of a text is the number of its bytes in UTF-8 |
| DocMeaning.ParseFile | scripts/openbao_documentation_v2.py:92-163 | with a fresh budget a file is accepted exactly up to 2097152 bytes, when it is readable and has at most 4096 operations with 65536 fields; the result is those operations |
| Relay.RelayObject.Record | scripts/consistency_tls_relay.py:52-60 | refuses exactly a foreign event or a log of 128; otherwise appends exactly that event |
| Relay.RelayObject.WaitFor | scripts/consistency_tls_relay.py:72-76 | refuses exactly foreign events, counts and times out of range; otherwise true exactly when the log holds the event that often by the end of the wait |
| Relay.RelayObject.SwitchCluster | scripts/consistency_tls_relay.py:66-70 | both ports change together and nothing else does |
| Relay.RelayObject.Accept | scripts/consistency_tls_relay.py:187-191 | refuses exactly from the 128th accepted request on and otherwise counts one more, as the step machine does |
| Relay.RelayObject.Route | scripts/consistency_tls_relay.py:192-193 | the current leader port exactly for a POST without an index header, the follower port otherwise |
| Relay.RelayObject.Acquire | scripts/consistency_tls_relay.py:86-89 | takes a permit unless none is left |
| Relay.RelayObject.Release | scripts/consistency_tls_relay.py:114-116 | returns a permit, or refuses beyond four |
| Relay.InvStep | scripts/consistency_tls_relay.py:86-201 | every step of every thread and every switch keeps the invariant on permits, log, phases, epochs and events |
| Relay.EveryRun | scripts/consistency_tls_relay.py:52-60 | in every interleaving recorded events never exceed accepted requests, accepted requests never exceed 128 and at most four permits are held |
| Relay.LogIsRequests | scripts/consistency_tls_relay.py:52-60 | in every interleaving the log names, event by event, the known request that the thread which recorded it had taken; no thread records twice |
| Relay.NoRefusal | scripts/consistency_tls_relay.py:52-60 | neither refusal inside record can happen to a routed request, nor can the semaphore be released too often |
| Relay.RoutedPorts | scripts/consistency_tls_relay.py:192-193 | a routed request uses the pair of a single switch epoch, index-free POSTs its leader |
| Relay.SwitchedPort | scripts/consistency_tls_relay.py:66-70 | after a switch and until the next one every newly routed request goes to the new port |
| Relay.SnapshotPrefix | scripts/consistency_tls_relay.py:62-64 | a snapshot is a prefix of every later one, and no count ever drops |
| Relay.ReturnedOnce | scripts/consistency_tls_relay.py:96-116 | in every run a thread returns its permit once if it is closed and never otherwise |
| Relay.LeakedExactly | scripts/consistency_tls_relay.py:104-116 | a permit is lost exactly when the thread's deadline timer fails to start |
| Relay.PermitsBackIff | scripts/consistency_tls_relay.py:86-116 | when all connections are over, all four permits are back if and only if every timer started |
| Relay.ThreadEnds | scripts/consistency_tls_relay.py:96-116 | a thread that is not over has a way to its end that returns its permit and touches no other thread |
| Relay.EveryRunDrains | scripts/consistency_tls_relay.py:86-116 | every run has a continuation without a timer failure after which all connections are over and exactly the leaked permits are missing |
| Relay.LeaksHappen | scripts/consistency_tls_relay.py:104-106 | up to four connections can be admitted whose timers fail; each keeps its permit and all are over |
| Relay.LeakAndExhaustion | scripts/consistency_tls_relay.py:86-106 | one such connection leaves three permits at rest, and after four every later connection is refused |
| Relay.Exhausted | scripts/consistency_tls_relay.py:86-106 | four timer failures leave no permit, and every later connection is refused, whatever else happens |
| Ranges.StateForVersion | scripts/generate_openbao_capability_registry.py:334-341 | finds the value of the first interval that holds the release, and fails exactly when none does |
| Ranges.StateFor | scripts/generate_openbao_version_contracts.py:76-87 | on an ascending list with known bounds the lookup by position equals the lookup by number; it never answers differently |
| RegistryMeaning.LessIs | scripts/generate_openbao_capability_registry.py:588-592 | one release is before another when it has the smaller number at the first place where they differ |
| RegistryMeaning.MatchesAt | scripts/generate_openbao_capability_registry.py:334-341 | the matches of a release are the items at exactly the positions whose bounds enclose it, in order |
| RegistryMeaning.LookupIs | scripts/generate_openbao_capability_registry.py:334-341 | the answer is the value of the first item that encloses the release, and a refusal exactly when none does |
| Ranges.CompressRanges | scripts/generate_openbao_capability_registry.py:310-331 | refuses exactly unequal or empty lists; otherwise the run-length compression |
| Ranges.CompressLookup | scripts/generate_openbao_capability_registry.py:310-341 | looking a release up in a compressed list gives back its own state, from exactly one range |
| Ranges.ValidateRanges | scripts/generate_openbao_capability_registry.py:641-678 | the validator's range loop decides acceptance |
| Ranges.AcceptedIff | scripts/generate_openbao_capability_registry.py:641-678 | a range list is accepted if and only if it is the compression of some sequence of allowed states |
| Ranges.AcceptedCanonical | scripts/generate_openbao_capability_registry.py:644-678 | two accepted lists with equal lookups are identical |
| Ranges.AcceptedLookup | scripts/generate_openbao_capability_registry.py:641-678 | an accepted list matches every release exactly once, with an allowed state |
| Ranges.ValidateVariants | scripts/generate_openbao_capability_registry.py:704-731 | the endpoint loop decides acceptance of an endpoint's variants |
| Ranges.VariantsIff | scripts/generate_openbao_capability_registry.py:704-731 | variants are accepted if and only if they are ordered, disjoint, name known operations and cover every release |
| Ranges.VariantsRoute | scripts/generate_openbao_capability_registry.py:704-731 | accepted variants route every release to exactly one known operation |
| Ranges.BuildRanges | scripts/generate_openbao_capability_registry.py:424-456 | fails exactly when a profile block targets an undocumented route; otherwise each release is matched once, by the state the evidence rules give it, and the validator accepts the list exactly when no corrected-only route is blocked |
| Ranges.CompressedAccepted | scripts/generate_openbao_capability_registry.py:641-678 | the compression of a state vector is accepted exactly when all its states are allowed |
| Ranges.CorrectedBlockRefused | scripts/generate_openbao_capability_registry.py:433-447 | evidence and a block table whose built ranges the validator refuses |
| Ranges.BuildShippedRanges | scripts/generate_openbao_capability_registry.py:133-137 | with the shipped block table the validator accepts every list that is built |
| Ranges.RuleAllowedIff | scripts/generate_openbao_capability_registry.py:424-447 | a rule's state is one the validator allows, except exactly for a block on a route only the corrected contract documents |
| RegistryMeaning.RuleMeans | scripts/generate_openbao_capability_registry.py:424-447 | the state of a route, in literal texts: blocked, documented or unavailable, with the tagged text before the OpenAPI document before the corrected contract as evidence |
| RegistryMeaning.RuleRefuses | scripts/generate_openbao_capability_registry.py:440-447 | refused exactly for a block on a route that nothing documents |
| RegistryMeaning.BuildRouteRanges | scripts/generate_openbao_capability_registry.py:424-456 | every release lies in exactly one of the built ranges, and that has the literal state of the rule |
| Registries.Selected | scripts/generate_openbao_2_6_5_candidate.py:23-28 | succeeds exactly for one match, or none where that is optional, and returns it |
| Registries.ValidatedWellFormed | scripts/generate_openbao_capability_registry.py:641-731 | a registry that passes the range and endpoint loops has one match for every operation and at most one for every endpoint, as the patch steps need |
| Patches.InsertRange | scripts/generate_openbao_2_6_5_candidate.py:45-51 | inserting a point range leaves every other release's matches alone and matches the new one once, by a copy of its predecessor's range |
| Patches.CountStates | scripts/generate_openbao_2_6_5_candidate.py:57-60 | the counts are those of the new release's states over all operations |
| Patches.InsertPatch | scripts/generate_openbao_2_6_5_candidate.py:31-63 | succeeds exactly under its own requirements; then keeps every parent lookup, gives the new release its predecessor's states and routes, and keeps a well-formed registry well formed |
| RegistryMeaning.GrowByInsertion | scripts/generate_openbao_2_6_5_candidate.py:31-63 | the same step by positions: when it refuses, and that every operation gives the new release its predecessor's state alone and answers for all other releases as before; the counts are numbers of operations |
| RegistryMeaning.CountIs | scripts/generate_openbao_2_6_5_candidate.py:57-60 | a count is the number of operations whose deciding range has that availability |
| Patches.InsertedHistory | scripts/generate_openbao_2_6_4_candidate.py:37-47 | history is kept and the predecessor inherited by any insertion of this form |
| Patches.AppendIsAppended | scripts/generate_openbao_2_7_1_candidate.py:28-35 | for any list, every release but the new one is matched by the same items, and the new one by one more, a copy of the last |
| Patches.AppendOnceIff | scripts/generate_openbao_2_7_2_candidate.py:36-45 | the new release is matched once exactly when the parent left it unmatched |
| Patches.MatchedTwice | scripts/generate_openbao_2_7_2_candidate.py:36-40 | a list that passes the step's requirement and leaves the new release matched twice |
| Patches.AppendTidy | scripts/generate_openbao_2_7_2_candidate.py:36-45 | on well-formed lists appending gives the new release its predecessor's value, matched once |
| Patches.AppendPatch | scripts/generate_openbao_2_7_1_candidate.py:15-37 | succeeds exactly under its own requirements; keeps history for every parent that passes and does not list the release; on a well-formed parent inherits the predecessor and stays well formed |
| RegistryMeaning.GrowByAppending | scripts/generate_openbao_2_7_1_candidate.py:15-37 | refused exactly when some last item does not end (or begin) at the last release; otherwise every list gains one point item with the last value and nothing else changes |
| MinorRelease.MinorOperationMatches | scripts/generate_openbao_2_7_candidate.py:90-100 | for any operation, every other release is matched by the same items and the new one by one more, with the evidence's state |
| MinorRelease.StretchMatches | scripts/generate_openbao_2_7_candidate.py:102-105 | stretching the last variant changes no route up to the last release or after the new one, and adds the last route at the new one |
| MinorRelease.MinorOperations | scripts/generate_openbao_2_7_candidate.py:80-101 | every old operation keeps its identity and gets one range for the new release; the new operations are exactly the new runtime routes |
| MinorRelease.AppendMinor | scripts/generate_openbao_2_7_candidate.py:56-122 | succeeds exactly under its own requirements; operations keep their history in any registry, endpoints as soon as the release list ascends; on a well-formed registry each operation has the evidence's state and the result is well formed |
| RegistryMeaning.MinorMeans | scripts/generate_openbao_2_7_candidate.py:91-99 | the state at the new minor, in literal texts and prefixes |
| RegistryMeaning.GrowByMinor | scripts/generate_openbao_2_7_candidate.py:56-122 | when the step refuses; otherwise the literal ranges of every old and new operation, one new operation for each run-time route, and the literal endpoints |
| Merge.CombineItems | scripts/generate_openbao_patch_registry.py:43-48 | succeeds exactly when the branches agree on shared releases and the added ones have their own point ranges; then an added release has the matches of both branches and every other one those of the left |
| Merge.JoinedAgrees | scripts/generate_openbao_patch_registry.py:43-62 | on an added release the merge agrees with the right branch exactly when the left branch leaves it unmatched |
| Merge.JoinedTidy | scripts/generate_openbao_patch_registry.py:43-62 | for a tidy left list the merge agrees with each branch on that branch's releases and keeps one match a release |
| Merge.Combine | scripts/generate_openbao_patch_registry.py:20-68 | refuses exactly disagreeing branches; any merge keeps the left history; for a well-formed left branch it agrees with the left branch on every left release and with the right branch on every right release, for operations and endpoints |
| RegistryMeaning.GrowByMerging | scripts/generate_openbao_patch_registry.py:20-68 | the merge by positions: when it refuses, and that an added release has the right branch's item where the left branch has none, every other release what the left branch has |
| Chain.BranchesCombine | scripts/generate_openbao_patch_registry.py:20-62 | two insertions and two appends that succeed on one well-formed parent give branches that the merge does not refuse |
| Chain.SecondInsertOk | scripts/generate_openbao_2_6_5_candidate.py:31-56 | on a well-formed parent the second insertion passes whenever the first did |
| Chain.MergeBranches | scripts/generate_openbao_patch_registry.py:71-72 | the four steps and the merge from one well-formed parent succeed exactly when both first steps do; the result keeps the parent's history, inserted patches say what their predecessor says and appended ones what the pivot says |
| Chain.MinorIsShaped | scripts/generate_openbao_2_7_candidate.py:80-111 | after a minor release the gap before it is empty, routes carry over it and every last range starts or ends at it, as the patch steps require |
| Chain.CandidateChain | scripts/generate_openbao_2_7_candidate.py:56-122 | from the active registry the whole chain refuses exactly when the minor step does; it keeps history from end to end, with the evidence's states in the new minor and inherited ones in every patch |
| Contracts.PercentBasisPoints | scripts/generate_openbao_version_contracts.py:90-93 | refused exactly outside 0 to the denominator or for an empty denominator; otherwise the exact floor, and full coverage only for equal counts |
| Contracts.AllowedCell | scripts/generate_openbao_version_contracts.py:173-208 | every allowed state of a classified operation has a cell, and the validator accepts it |
| Contracts.TallyStep | scripts/generate_openbao_version_contracts.py:172-197 | counting availabilities and implementations in one dictionary mixes nothing up |
| Contracts.Balanced | scripts/generate_openbao_version_contracts.py:210-213 | documented equals typed plus typed-gated plus security-blocked, and documented plus unavailable equals the number of operations |
| Contracts.BuildCell | scripts/generate_openbao_version_contracts.py:173-208 | in a validated registry none of the inner loop's refusals fires; the cell is the one `ContractMeaning.CellAtMeans` describes |
| Contracts.BuildProfile | scripts/generate_openbao_version_contracts.py:142-242 | fails exactly for a release whose evidence does not pass or with no available operation; the unexplained-operation refusal never fires; the summary counts the cells |
| Contracts.ValidateMatrix | scripts/generate_openbao_version_contracts.py:289-399 | accepts exactly the matrices whose versions, identities, cells, live and response evidence, profile summaries and totals are right |
| Contracts.AcceptedBalanced | scripts/generate_openbao_version_contracts.py:302-353 | in every accepted matrix, built or not, the profile counts explain every cell |
| Contracts.BuildMatrix | scripts/generate_openbao_version_contracts.py:96-264 | for a validated registry succeeds exactly when the evidence covers and passes every release, every fixture hash is a digest and every release offers an operation; its own validator accepts the result, whose cells and counts `ContractMeaning.BuildContracts` describes |
| ContractMeaning.CellAtMeans | scripts/generate_openbao_version_contracts.py:173-208 | from the one range that holds the release: implementation security-blocked exactly for a blocked state, the disposition for a documented one and not-applicable for an unavailable one; the endpoint text is the state's evidence and the request text the literal one belonging to it |
| ContractMeaning.BuiltSummary | scripts/generate_openbao_version_contracts.py:195-241 | every count of a release is the number of operations with that state and disposition: blocked are those whose state is blocked or which are documented with a blocked disposition |
| ContractMeaning.EvidenceMeans | scripts/generate_openbao_version_contracts.py:142-170 | the evidence gates in literal terms: the flows passed and skipped, by positions, are all of them on 2.6.0 to 2.6.3 and the first eight elsewhere |
| ContractMeaning.CellPassesIs | scripts/generate_openbao_version_contracts.py:302-345 | which cells the validator lets pass, in literal texts |
| ContractMeaning.MatrixPassesIs | scripts/generate_openbao_version_contracts.py:289-399 | which matrices it accepts: counts are sizes of sets of cells, and the totals those over all releases |
| ContractMeaning.BuildContracts | scripts/generate_openbao_version_contracts.py:96-264 | the whole builder by what it means: when it succeeds, and every operation row, cell and count of the result |
| SchemaFields.ResolveSchema | scripts/generate_openbao_contract_matrix.py:558-620 | the loops compute the depth-limited resolver, which terminates on unseen schema names and schema size and which `SchemaMeaning.ResolveMeans` characterises |
| SchemaFields.ResolveCut | scripts/generate_openbao_contract_matrix.py:558-620 | under a looser limit a result without the depth mark is unchanged, and one with it only grows |
| SchemaFields.DepthMarkIff | scripts/generate_openbao_contract_matrix.py:565-566 | the depth mark is absent if and only if the result is that of the unlimited resolver |
| SchemaFields.ShallowerSame | scripts/generate_openbao_contract_matrix.py:558-620 | a result without the mark is the same from any shallower start |
| SchemaFields.LimitOnlyCuts | scripts/generate_openbao_contract_matrix.py:617-620 | the depth limit never turns an answer into a refusal and never invents a field |
| SchemaMeaning.ResolveMeans | scripts/generate_openbao_contract_matrix.py:558-620 | under any bound a path is found exactly when a derivation leads to it, by members of allOf, oneOf and anyOf, properties, items and references to unseen names; its field is that of the last derivation in traversal order, required exactly when the schema holding the property lists its name, with that property's facets; a review mark stands exactly for a call that has it |
| SchemaMeaning.RefusedIff | scripts/generate_openbao_contract_matrix.py:617-620 | a refusal stands exactly for more than 8192 found paths in some call |
| SchemaMeaning.ResolveTop | scripts/generate_openbao_contract_matrix.py:558-620 | the resolver as it is called has that meaning from depth 0 |
| PathVariants.NormalHasNoGroup | scripts/generate_openbao_contract_matrix.py:485-488 | no variant has an optional segment left |
| PathVariants.Round | scripts/generate_openbao_contract_matrix.py:484-494 | one pass in any enumeration order keeps the final forms and lowers the largest parenthesis count among variants that still match |
| PathVariants.Variants | scripts/generate_openbao_contract_matrix.py:480-495 | terminates on nested groups too, and returns the sorted normal forms |
| PathVariants.KeepOrDropIff | scripts/generate_openbao_contract_matrix.py:480-495 | the variants are exactly the keep-or-drop choices if and only if no choice has an optional segment of its own |
| PathVariants.KeepOrDrop | scripts/generate_openbao_contract_matrix.py:480-495 | with no parenthesis between the groups they are exactly the choices |
| PathVariants.NestedCounterexample | scripts/generate_openbao_contract_matrix.py:480-495 | a family of nested paths whose variants are not the choices |
| RouteMeaning.SearchIs | scripts/generate_openbao_contract_matrix.py:61-61 | the search finds the leftmost place at which the literal form of an optional segment stands, with its name and the rest |
| RouteMeaning.VariantsMean | scripts/generate_openbao_contract_matrix.py:480-495 | a text is a variant of a path exactly when keeping or dropping the leftmost optional segment, again and again, leads to it from the path before its first question mark |
| RouteMatch.PathScore | scripts/generate_openbao_contract_matrix.py:507-534 | the loop returns the score of the two segment lists, or none |
| RouteMatch.TotalBound | scripts/generate_openbao_contract_matrix.py:513-534 | equal segments score 100 each and any difference costs at least 20 |
| RouteMatch.Select | scripts/generate_openbao_contract_matrix.py:630-651 | for any enumeration: absent, the one best candidate, or all tied ones in order; `RouteMeaning.SelectRoute` states which those are |
| RouteMatch.SelectionUnique | scripts/generate_openbao_contract_matrix.py:642-651 | the outcome does not depend on enumeration order, and a tie is never turned into a match |
| RouteMatch.ExactPathWins | scripts/generate_openbao_contract_matrix.py:507-534 | without optional segments, a single supporting candidate with equal segments wins alone by at least 20 |
| RouteMeaning.SegmentsMean | scripts/generate_openbao_contract_matrix.py:498-500 | the segments are what stands between the slashes of the path without its outer slashes |
| RouteMeaning.PointsMean | scripts/generate_openbao_contract_matrix.py:513-533 | what a pair of segments scores: 100, 80, 60, 20, 10, 5 or nothing, each with its condition on the texts |
| RouteMeaning.ScoreMeans | scripts/generate_openbao_contract_matrix.py:507-534 | a path scores exactly the sum of the points of its pairs when there are equally many segments and every pair scores |
| RouteMeaning.MethodMeans | scripts/generate_openbao_contract_matrix.py:537-555 | the six HTTP methods take their own lower-case key, LIST and SCAN the GET operation with the parameter list or scan, every other method nothing |
| RouteMeaning.RankMeans | scripts/generate_openbao_contract_matrix.py:636-641 | the rank of a candidate is the largest score of any variant |
| RouteMeaning.SelectRoute | scripts/generate_openbao_contract_matrix.py:630-651 | without the scoring functions: nothing exactly when no path answers with a score; otherwise the path of the single best score with the operation that answers the method, or all paths of the best score, sorted |
| StageProgress.Progress.Feed | scripts/openbao_2_6_4_sdk.py:38-50 | accepts a read exactly when total, order of stage lines and unfinished tail of all bytes so far are within the rules |
| StageProgress.Progress.SeenAll | scripts/openbao_2_6_4_sdk.py:79-80 | the count is complete exactly when the stage lines are all labels in order |
| StageProgress.StateOfBytes | scripts/openbao_2_6_4_sdk.py:33-50 | for any two accepted chunkings of the same bytes count, tail buffer and total are equal, and the complete stage lines are exactly the counted labels |
| StageProgress.AcceptsIff | scripts/openbao_2_6_4_sdk.py:38-50 | acceptance of a chunking is one condition on the whole stream and a bound on the tail at each cut |
| StageProgress.CoarserAccepted | scripts/openbao_2_6_4_sdk.py:38-50 | a chunking coarser than an accepted one is accepted and leaves the same bytes |
| StageProgress.FinerMayBeRejected | scripts/openbao_2_6_4_sdk.py:50-50 | the converse fails for every long unmarked line |
| StageProgress.PumpStable | scripts/openbao_2_6_4_sdk.py:62-78 | once both pipes are closed nothing later matters, and earlier reads stay |
| StageProgress.Exchange | scripts/openbao_2_6_4_sdk.py:53-86 | under any partial writes and reads: succeeds exactly when both pipes close, the child exits with 0 and the stages are complete, and then exactly the payload was delivered |
| StageMeaning.MarkerLinesIs | scripts/openbao_2_6_4_sdk.py:42-48 | the stage lines are the finished lines that begin with the marker, by positions |
| StageMeaning.PumpMeans | scripts/openbao_2_6_4_sdk.py:62-78 | what was written is the sum of the writes of at most 4096 bytes, up to the payload; each pipe is closed exactly when its last write or its end of file came |
| StageMeaning.RunExchange | scripts/openbao_2_6_4_sdk.py:53-86 | success exactly when the payload was written and the output ended in time, its marker lines are the marker and the stages in order, at most 65536 bytes came with at most 1024 unfinished at every cut, and the child exits with 0 |
| StageSession.Session.Expect | scripts/openbao_2_7_consistency_sdk_lag.py:76-96 | succeeds exactly when the next unconsumed marker line is the next stage, reading no more than needed; keeps every byte for the next call |
| StageSession.Session.Finish | scripts/openbao_2_7_consistency_sdk_lag.py:98-101 | succeeds exactly after every stage and an exit with 0 |
| StageSession.LaterIgnored | scripts/openbao_2_7_consistency_sdk_lag.py:98-101 | whatever is read after the last stage does not change the outcome |
| StageSession.SurplusAccepted | scripts/openbao_2_7_consistency_sdk_lag.py:98-101 | a stream with a surplus marker after the last stage that still succeeds |
| StageSession.Refused | scripts/openbao_2_7_consistency_sdk_lag.py:76-96 | one refused expectation rules the whole conversation out, however the stream is cut |
| StageSession.RunStages | scripts/openbao_2_7_consistency_sdk_lag.py:76-101 | successive calls consume markers exactly in stage order without losing or reusing one, and succeed exactly when the stream announces the stages within the limit |
| StageSession.Send | scripts/openbao_2_7_consistency_sdk_lag.py:61-74 | through any partial writes exactly the argument is delivered, or a prefix with a refusal |
| StageMeaning.PayloadMeans | scripts/openbao_2_7_consistency_sdk_lag.py:86-94 | a payload is what follows the first place at which the marker stands in a line |
| StageMeaning.Converse | scripts/openbao_2_7_consistency_sdk_lag.py:76-101 | the conversation succeeds exactly when some clean reads of at most 16384 bytes have lines whose payloads begin with the stages, and the child exits with 0 |
| StageMeaning.SendAll | scripts/openbao_2_7_consistency_sdk_lag.py:61-74 | exactly up to 65536 bytes with a final newline are delivered, unless an attempt takes nothing or the attempts offer too little |
| Versions.ParseIsRenderInverse | scripts/openbao_ci_matrix.py:80-88 | the accepted texts are exactly the rendered versions, each parsed back to its own |
| Versions.DecimalDigits | scripts/openbao_ci_matrix.py:80-88 | a component holds the decimal digits of its number, without leading zeros |
| Versions.RenderText | scripts/openbao_ci_matrix.py:80-88 | the text of a release is its three numbers in order between dots |
| Versions.OrderIsPosition | scripts/generate_openbao_version_contracts.py:85-86 | on an ascending list comparing numbers is comparing positions |
| CiMatrix.ProfileVersions | scripts/openbao_ci_matrix.py:91-111 | over any inventory the dictionary and the loops compute the profile, refused exactly when empty, unknown, not canonical or fewer than two |
| CiMatrix.RepresentativeIs | scripts/openbao_ci_matrix.py:101-108 | in any canonical inventory the representative releases are the first one and, each once, the last listed release of every minor line |
| CiMatrix.RepresentativeIsChosen | scripts/openbao_ci_matrix.py:101-108 | in an ascending inventory they are the chosen ones of the next rows, in order |
| CiMatrix.EndIsNewest | scripts/openbao_ci_matrix.py:101-104 | in an ascending inventory the last entry of a line is its newest patch |
| CiMatrix.ChosenIsNewest | scripts/openbao_ci_matrix.py:91-111 | the representative profile is a strictly ascending selection of exactly the first release and the newest patch of each minor line |
| CiMeaning.PicksIs | scripts/openbao_ci_matrix.py:91-111 | over any inventory: all takes every release, representative the first and then the last listed release of every minor line in order of first appearance, when they are at least two; every other name and an empty inventory are refused |
| CiAggregate.ValidateResultRecord | scripts/openbao_ci_matrix.py:200-257 | decides the validity of a result record |
| CiAggregate.RecordTextsKnown | scripts/openbao_ci_matrix.py:209-258 | a record that passes the other checks holds only fixed texts and texts of the inventory and the tables |
| CiAggregate.PassingRan | scripts/openbao_ci_matrix.py:222-243 | a valid passing record ran every flow, or exactly the eight base flows on the other releases, with the rest skipped |
| CiAggregate.CoreFlowsDistinct | scripts/openbao_test_harness.py:42-57 | the fourteen flow names are distinct, as the previous row needs |
| CiAggregate.GoodReasonsIff | scripts/openbao_ci_matrix.py:244-257 | every valid record is explained if and only if the reason table has only known classes and not the CI reason |
| CiAggregate.SharedReasonsGood | scripts/openbao_core_matrix.py:52-56 | the shared table meets that condition |
| CiAggregate.SharedTableReliable | scripts/openbao_core_matrix.py:52-56 | with the shared table every download is reliable |
| CiAggregate.SidesAgree | scripts/openbao_ci_matrix.py:551-561 | the validator accepts the aggregate's own records and summary if and only if every received failure is explained |
| CiAggregate.ExpectedKnown | scripts/openbao_ci_matrix.py:368-372 | in a validated inventory every expected version is an exact entry, so that lookup never refuses |
| CiAggregate.CodeMeaning | scripts/openbao_ci_matrix.py:561-582 | what the exit code means: 0 exactly for a complete passing set with both jobs successful, 10 exactly for a complete set with explained incompatibilities |
| CiAggregate.ValidateAggregateReport | scripts/openbao_ci_matrix.py:604-679 | decides the validity of an aggregate report, which `CiMeaning.ReportMeans` states in literal terms |
| CiAggregate.Aggregate | scripts/openbao_ci_matrix.py:508-601 | ends with a report exactly for sound inputs and an inventory with each expected version once, whose failures are explained; the report satisfies the validator; exit codes 0, 10 and 20 stand exactly for the outcomes passed, compatibility-failed and infrastructure-failed, and 0 exactly when both results are success, the artifact set is exact and every expected release has a valid passing record |
| CiMeaning.RecordFitsIs | scripts/openbao_ci_matrix.py:200-257 | which result records are valid, in literal texts, flow by flow |
| CiMeaning.SummaryMeans | scripts/openbao_ci_matrix.py:637-661 | the counts of a summary are the numbers of records with each outcome and class |
| CiMeaning.OutcomeMeans | scripts/openbao_ci_matrix.py:662-677 | the outcome is passed exactly when all records passed, both results are success and the set is valid; compatibility-failed exactly when the set is valid, the download succeeded, the job failed and some record failed, none for the infrastructure |
| CiMeaning.ReportMeans | scripts/openbao_ci_matrix.py:604-679 | the validator accepts exactly the reports with a selected profile, known job results, one fitting record for each release, true counts and that outcome |
| CiMeaning.AggregateRun | scripts/openbao_ci_matrix.py:508-601 | when a report results; it holds the received record of each release or the literal one made up for it, its set is valid exactly when the artifact directories are those expected and every record arrived, and its outcome gives the exit code |

## Left out

- Hashes, signatures, file access, containers, network, Git, argument parsing, printing and the rendering of Markdown, CSV and Rust text: input and output only.
- `build_staged_registry` and `validate_staged_registry` (scripts/generate_openbao_capability_registry.py:477-554 and 734-885): their constants no longer fit the active inventory.
- Regular expressions of headings, fences, table rows and field rows: lines of a documentation file arrive classified; a line's title, slug, method list and unescaped path are part of its token.
- JSON parsing and type checks on parsed values: inputs are typed, so refusals of wrongly typed members are not modelled.
- Contracts.ValidateMatrix: does not compare the field lists, the scope, the source hashes and the constant claim texts, which are equal to constants by construction.
- Contracts.BuildMatrix: takes any number of releases and operations where the source fixes 25 and 691, and leaves out the verification of its input files.
- CiAggregate.ValidateResultRecord: does not check for unsafe characters, because a record that passes the rest holds only known texts (CiAggregate.RecordTextsKnown).
- CiAggregate.ValidateAggregateReport: does not compare schema, generator version and source hashes, which are constants of the run, nor check for unsafe characters.
- The rest of the snapshot validation that `validate` hands over to (scripts/openbao_documentation_v2.py:192-196). It also limits paths to 4096 bytes, which a relative path of exactly that length exceeds once its slash is added.
- The per-operation disposition checks and the summary of `validate_registry` after its range loop (scripts/generate_openbao_capability_registry.py:679-699).
- Sections carry their dash-separated lower-case name beside the title; lower-casing is part of the token.
- The patch and merge steps work on values where the source edits deep copies, which are not shared with anything.
- MinorRelease.AppendMinor: does not sort the operations by identifier afterwards, because the identifiers are hashes.
- SchemaFields: sorted field lists and review lists are maps and sets; the schema's copied keywords are one opaque value.
- RouteMatch.Select: the token normalisation is an arbitrary function, so the result holds for the source's one.
- Relay header checks, TLS, timeouts and the bodies: a handler may end at any point instead, which covers every one of these refusals.
- Wall-clock deadlines of the stage protocols: the script of reads and writes may end at any point, which is a refusal.
- The 2.6.5 copies of `Progress` and `exchange`, the same logic as the 2.6.4 file.
- The limit of 64 artifact directories: exceeding it is one of the ways in which the download cannot be inspected.
- Digits outside ASCII, which `version_tuple` would accept and `parse_version` refuses.
