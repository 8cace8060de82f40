# aec-bench verification

A Dafny model of the algorithms and state machines of aec-bench that carry real proof
obligations, with the properties they promise proved for every input and every run.
`dafny verify dfyconfig.toml` checks the whole project.

| module | models |
|---|---|
| `PackageDependencies` | Tarjan's strongly connected components in the package dependency audit, and the resolution of an import to its longest known module |
| `EvidenceLifecycle` | the request graph of a conditional checkpoint: cycle detection, prerequisite closures, budget, and the order of checkpoints |
| `LiteralStrings`, `ProjectConstants`, `ShadowedConstants` | the provenance checker's resolution of string constants across modules: expressions and tables, the passes and their least fixed point, and imports that shadow a constant |
| `ConstantExamples` | projects on which that resolution never stops, or stops in spite of a shadowed import |
| `ClassKinds` | the provenance checker's propagation of class kinds and content addressing |
| `ProvenanceBaseline` | registry relocations and locators, and the deletion-only baseline beside the audit that judges it |
| `ScopeNodes` | the explicit-stack traversal of one lexical scope |
| `ToolLoop`, `ToolLoopMeaning`, `ToolUsage` | a run of the tool loop against any client, tools and advisor; its usage figures, the advisor budget and the replay payload |
| `Trajectory` | publishing each message of a run once from concurrent snapshots |
| `RetryLoop` | the retry loop of the direct providers: waits, deadline, request count, switch to streaming |
| `ShellQuote` | quoting a script for the shell, read back by the POSIX.1-2017 Shell Command Language |
| `DatasetOverlap` | the overlap check of dataset task paths |
| `Adaptation` | expansion of variation axes into candidates with their lineage |
| `Catalogue`, `CatalogueMeaning` | flattening and comparing catalogue snapshots, and what is accepted and reported field by field |
| `Configuration` | laying configuration overrides over defaults |
| `Graphs`, `Ordering`, `Collections`, `Json`, `Results` | reachability, Python's orders and `sorted`, counting, JSON values with Python's `==`, and optional or raised results |

How the source is read:

- Code that mutates shared state is a class with those fields or a method with the same loops;
  each is proved against a declarative specification, and what is promised of the
  specification is proved in lemmas. Pure code is functions and lemmas.
- Functions that decide or compute an answer are pinned down from outside: what a run, a retry,
  an audit, a comparison, a class kind or an expression comes to is stated once more in terms of
  the inputs alone, without the functions that compute it.
- Python integers are Dafny integers, so nothing wraps around. Clock readings and waits are
  reals. Strings are sequences of characters compared by code point. Dictionaries are maps, so
  the order of insertion is not represented; where a loop walks a dictionary or a set, the
  model may visit the keys in any order and the result is proved to be the same.
- Anything outside the code (model clients, tools, advisors, HTTP, the clock, the source tree,
  Git) is an arbitrary value: an answer sequence, a log of exchanges, a set of symbols.
- The two validators `validate_request_graph` and `validate_operation_graph` are the same
  code with other names, and so are the two retry loops apart from the switch to streaming;
  each pair is one model with the difference as a parameter.

Where the code does not keep a property in general, a concrete input shows it and the
condition under which the property holds is proved:

- The constant loop. Where no module assigns a name under which it also imports a project
  constant, the loop stops exactly if the project has a quiet state, in at most one pass more
  than there are constants, at the least one; a project whose modules of one name share no
  constant always has one. Two modules of one name that assign a constant differently have
  none (`x.py` beside `x/__init__.py`), and neither has a project with a dependency cycle that
  adds text: in every quiet state of every project the constants on a cycle are equal. With
  shadowed imports the loop stops on every project whose dependencies have no cycle. Between
  these lie cycles that only copy, and there the order of the modules decides: three modules
  settle in one order and never in the other, so no condition on the set of modules is exact.
- The class-kind loop can stop only if no class named `ContentAddressedModel` extends a
  content-addressed class or another class of that name, and under that condition it does stop.
  The condition can be read off the table. Two classes of that name, one below the other, keep
  the loop going for ever.
- Merging three configurations is associative exactly when, wherever the middle one replaces a
  mapping of the first by something else, the last one replaces that mapping completely.
- The catalogue comparison uses Python's `==`. Against entries that the code has written
  itself this loses nothing: the patched snapshot is the current one exactly if no entity has
  lost a field, and always if the previous snapshot was written by the code too. Between other
  legal snapshots a field that changes from `1` to `true` is not reported; the code itself
  writes no such field.
- After a baseline update the audit can still report a symbol that is both registered and in
  the baseline. It does so exactly for the old names of moved fields that are still found and
  registered; a registry with one relocation shows it.
- Snapshots of a trajectory are each published from their start, nothing twice, exactly when
  any two of them are one the beginning of the other. When a failed attempt is followed by a
  streaming one within a run, the second attempt is published completely exactly if it repeats
  the first as far as both go; an attempt that takes another way loses messages.

## Model

| member | source | states |
|---|---|---|
| PackageDependencies.StronglyConnectedComponents | scripts/audit_package_dependencies.py:297-335 | for every finite graph, targets without an entry included, the result lists exactly the mutual-reachability classes of more than one node, each sorted and once, in list order |
| PackageDependencies.ComponentSearch.Visit | scripts/audit_package_dependencies.py:305-330 | the recursive visit keeps the search invariant, numbers the node, reports a lowlink witnessed by a reachable stack node and not above any stack node reachable from it, and changes no earlier lowlink |
| PackageDependencies.ComponentSearch.Explore | scripts/audit_package_dependencies.py:313-318 | one target: whichever branch is taken, the node's lowlink covers everything reachable through it and every other lowlink is kept |
| PackageDependencies.ComponentSearch.Leave | scripts/audit_package_dependencies.py:320-330 | a node whose lowlink is its index pops exactly its class; otherwise it stays on the stack with its lowlink witness |
| PackageDependencies.ComponentSearch.PopThrough | scripts/audit_package_dependencies.py:322-328 | the popped list holds each stack node numbered from the given node on, once, and the stack keeps the rest |
| PackageDependencies.PushKeepsInv | scripts/audit_package_dependencies.py:306-311 | entering a node keeps the invariant between numbers, stack, path of active calls and finished components |
| PackageDependencies.TopIsClass | scripts/audit_package_dependencies.py:320-328 | when a root is left, the stack from the root on is exactly the root's mutual-reachability class |
| PackageDependencies.PopKeepsInv | scripts/audit_package_dependencies.py:322-330 | recording and removing that class keeps the invariant |
| PackageDependencies.FinishedSearchListsAll | scripts/audit_package_dependencies.py:332-335 | after the outer loop no class is missing and none is listed that is not one |
| PackageDependencies.ComponentListingUnique | scripts/audit_package_dependencies.py:297-335 | at most one list meets the specification, so the result does not depend on how it is found |
| PackageDependencies.EmptyListingIffNoProperCycle | scripts/audit_package_dependencies.py:297-335 | the result is empty exactly when no two distinct nodes reach each other; self-loops do not count |
| PackageDependencies.KnownTarget | scripts/audit_package_dependencies.py:281-289 | the result is the longest known dotted prefix inside the package, and is absent only if there is none |
| EvidenceLifecycle.PrerequisiteChecker.Visit | src/aec_bench/contracts/evidence_lifecycle.py:62-71 | with `visiting` exactly the path of active calls, a raise means a cycle, and a normal return leaves the visited set closed under prerequisites, free of cycles and holding the node |
| EvidenceLifecycle.FindCycle | src/aec_bench/contracts/evidence_lifecycle.py:59-74 | visiting all ids raises if and only if the prerequisite relation has a cycle; it terminates on every graph (lines 144-159 are the same code for operations) |
| EvidenceLifecycle.PrerequisiteChecker.PrerequisiteClosure | src/aec_bench/contracts/evidence_lifecycle.py:78-87 | on an acyclic graph the memoised recursion terminates, returns the exact transitive prerequisites, never the id itself, and keeps every cached entry exact (lines 161-172 for operations) |
| EvidenceLifecycle.RequiredBudgetIsExact | src/aec_bench/contracts/evidence_lifecycle.py:89-95 | closure size plus one is within the budget exactly when some duplicate-free sequence that respects prerequisites ends in the request within the budget, and no such sequence holding the request is shorter |
| EvidenceLifecycle.OrderEndingIn | src/aec_bench/contracts/evidence_lifecycle.py:89-95 | on an acyclic graph each request ends a valid sequence of exactly the required length |
| EvidenceLifecycle.ClosureComesFirst | src/aec_bench/contracts/evidence_lifecycle.py:89-95 | every valid sequence contains the whole closure of a request before the request |
| EvidenceLifecycle.FindUnaffordable | src/aec_bench/contracts/evidence_lifecycle.py:89-95 | the first declared request whose closure exceeds the budget is found with its exact requirement |
| EvidenceLifecycle.FindUnknown | src/aec_bench/contracts/evidence_lifecycle.py:51-57 | the first declared request with undeclared prerequisites is found with exactly those |
| EvidenceLifecycle.ValidateRequestGraph | src/aec_bench/contracts/evidence_lifecycle.py:43-181 | each verdict is given exactly for its fault, faults in the source's order; acceptance means unique ids, known prerequisites, no cycle and every request reachable within the budget; lines 43-96 for requests, lines 126-181 for operations |
| EvidenceLifecycle.FindLaterDependency | src/aec_bench/contracts/evidence_lifecycle.py:242-248 | nothing is reported exactly when the listed order respects every dependency; otherwise the first offending entry's names are returned |
| EvidenceLifecycle.ValidateOrderedCheckpoints | src/aec_bench/contracts/evidence_lifecycle.py:232-253 | a lifecycle is accepted exactly when ids and submission paths are unique, the order respects every dependency and the protocols are not mixed |
| EvidenceLifecycle.OrderedLifecycleMeans | src/aec_bench/contracts/evidence_lifecycle.py:234-248 | the order of checkpoints one by one: no id twice, every dependency an earlier checkpoint; and unique submission paths |
| EvidenceLifecycle.OrderedLifecycleIsAcyclic | src/aec_bench/contracts/evidence_lifecycle.py:242-248 | an accepted order leaves no cycle among checkpoint dependencies |
| LiteralStrings.LiteralIsMeaning | scripts/check_provenance_fields.py:440-466 | following names under the path-local `seen` guard gives exactly the well-founded value of every expression, so the guard never blocks a resolvable name |
| LiteralStrings.EvalMeans | scripts/check_provenance_fields.py:443-466 | what each shape of expression evaluates to: sums from left to right, f-strings as their pieces in order, nothing if a part has no value |
| LiteralStrings.DecimalIsNumeral | scripts/check_provenance_fields.py:445-446 | an integer's text is its decimal numeral without leading zeros |
| LiteralStrings.CollapsedSameMeaning | scripts/check_provenance_fields.py:550-556 | replacing names by their values while a pass is under way changes no result of the pass |
| ProjectConstants.ResolveModule | scripts/check_provenance_fields.py:545-556 | on every project, one module's loop makes exactly the visits of some order of its constants, and reports no change exactly if all of them are up to date |
| ProjectConstants.ResolvePasses | scripts/check_provenance_fields.py:541-556 | on every project on which it stops within a number of passes, the loop ends in a quiet state after at most one more |
| ProjectConstants.StopsOnlyWhenQuiet | scripts/check_provenance_fields.py:543-556 | on every project a pass leaves `changed` unset exactly in a quiet state, and then it changes nothing |
| ProjectConstants.ValueIsStable | scripts/check_provenance_fields.py:551-554 | without shadowing a value once found is the one of every quiet state, so a locator's value never changes once set |
| ProjectConstants.StopsIffQuietStateExists | scripts/check_provenance_fields.py:541-556 | without shadowing the loop stops on all orders iff some state is quiet, and then within as many passes as there are locators |
| ProjectConstants.StoppedAtLeast | scripts/check_provenance_fields.py:541-556 | without shadowing it stops at the least quiet state |
| ProjectConstants.WellFormedStops | scripts/check_provenance_fields.py:541-556 | without shadowing, and with one owner for each locator, it always stops |
| ProjectConstants.LeastQuietIsLeastSolution | scripts/check_provenance_fields.py:541-556 | the least quiet state is then the least solution of one-step evaluation, every value produced by its own expression |
| ProjectConstants.LeastQuietUnique | scripts/check_provenance_fields.py:539-568 | the result does not depend on the order of the modules |
| ProjectConstants.LocatorInjective | scripts/check_provenance_fields.py:552-552 | different constants have different locators, dots in module names notwithstanding |
| ProjectConstants.QuietModulesAgree | scripts/check_provenance_fields.py:552-554 | the loop can stop only where modules that share a locator agree on its value |
| ProjectConstants.ResolveProjectConstants | scripts/check_provenance_fields.py:539-568 | the rewritten tables come from a quiet state, without shadowing from the least one, and with one owner for each locator every expression has in them its value under the least solution, empty strings included |
| ProjectConstants.FinalEntries | scripts/check_provenance_fields.py:559-566 | the entries of a rewritten table: nonempty own values as literals, imports, else the old expression |
| ShadowedConstants.OrderedStops | scripts/check_provenance_fields.py:541-556 | shadowed imports included, the loop stops on every project whose valued constants depend on each other without a cycle, after as many passes as the dependencies are deep |
| ShadowedConstants.PassRaisesLevel | scripts/check_provenance_fields.py:543-556 | each pass settles one more level of the dependencies for good, in whatever order |
| ShadowedConstants.VisitFindsEarly | scripts/check_provenance_fields.py:546-556 | what a visit finds does not depend on constants that come later in the dependencies, recorded in this pass or not |
| ShadowedConstants.CyclesAddNothing | scripts/check_provenance_fields.py:541-556 | in every quiet state of every project the constants on a dependency cycle have the same value, so a cycle that adds text keeps the loop from stopping |
| ConstantExamples.ShadowingNeverSettles | scripts/check_provenance_fields.py:545-556 | two modules whose cycle through a shadowed import adds text have no quiet state |
| ConstantExamples.DuplicateNeverSettles | scripts/check_provenance_fields.py:469-480 | two files that are both module `x` and assign X differently have no quiet state although nothing is shadowed |
| ConstantExamples.ExtendingStops | scripts/check_provenance_fields.py:547-556 | `from b import X; X = X + "s"` does no harm |
| ConstantExamples.ModuleOrderDecides | scripts/check_provenance_fields.py:545-556 | three modules that copy around a cycle never settle in one order and settle within three passes in the other |
| ClassKinds.ResolveClassKinds | scripts/check_provenance_fields.py:802-831 | terminates on every table, cyclic ones included, in which markers are roots; a kind is set iff some class on the resolved ancestor chain has a direct kind, it is the class's own or comes from the first base that had one, and content addressing is the least relation closed under the two rules |
| ClassKinds.DirectKindMeans | scripts/check_provenance_fields.py:798-814 | each direct kind and direct content addressing as an iff on the text after the last dot of bases and decorators, in the order TypedDict, dataclass, model bases |
| ClassKinds.FirstBaseDecides | scripts/check_provenance_fields.py:820-826 | a class without a kind of its own whose first resolved base has one ends with that base's kind |
| ClassKinds.StepKeepsFromBases | scripts/check_provenance_fields.py:820-826 | walking the bases in order, a class keeps the first kind it meets: no resolved base before that one has a kind of its own |
| ClassKinds.QuietIsResolved | scripts/check_provenance_fields.py:816-831 | a pass without change leaves both attributes complete |
| ClassKinds.QuietOnlyIfMarkersAreRoots | scripts/check_provenance_fields.py:827-831 | the loop can stop only if no marker class extends an addressed class or a marker |
| ClassKinds.MarkersAreRootsIff | scripts/check_provenance_fields.py:812-831 | that condition, read off the table by paths of classes that are no markers |
| ClassKinds.AddressedIffLeadsToGround | scripts/check_provenance_fields.py:812-831 | which classes the two rules address, by a path to a class that extends the marker's name or a marker class |
| ClassKinds.MarkerBelowMarkerNeverSettles | scripts/check_provenance_fields.py:827-831 | on a table of two marker classes, one below the other, no reachable state is quiet |
| ClassKinds.AssignDirect | scripts/check_provenance_fields.py:803-814 | the first loop gives every class exactly its direct kind and direct content addressing |
| ClassKinds.ApplyBases | scripts/check_provenance_fields.py:820-831 | the bases of one class keep the state sound, and each reported change makes progress |
| ClassKinds.StepKeepsConsistent | scripts/check_provenance_fields.py:820-831 | one base of one class never sets an attribute that the ancestors do not justify |
| ClassKinds.StepMakesProgress | scripts/check_provenance_fields.py:824-831 | on tables whose markers are roots, every change lowers the number of open attributes |
| ProvenanceBaseline.LoadRelocations | scripts/check_provenance_fields.py:1538-1565 | relocations are accepted exactly when they are well formed, strictly sorted and no two destinations overlap anywhere in the list |
| ProvenanceBaseline.LegalRelocationsMean | scripts/check_provenance_fields.py:1550-1565 | the accepted relocation lists, prefix by prefix: dots at the ends, different, strictly ascending destinations, none a prefix of another |
| ProvenanceBaseline.LegalFieldsMean | scripts/check_provenance_fields.py:1576-1674 | the accepted field lists, locator by locator |
| ProvenanceBaseline.AuditMeans | scripts/check_provenance_fields.py:2344-2395 | for each symbol exactly when it is reported as PROV001, PROV003 and PROV005, by discovery, registration, baseline and relocation prefixes; each list sorted |
| ProvenanceBaseline.FindingsMean | scripts/check_provenance_fields.py:2327-2342 | the state of each finding, current ones under the symbol of the entry that declares them |
| ProvenanceBaseline.OrphansMean | scripts/check_provenance_fields.py:2372-2384 | PROV004 names exactly the entries none of whose locators is discovered |
| ProvenanceBaseline.UpdateMeans | scripts/check_provenance_fields.py:2537-2559 | for each symbol exactly when an update refuses it and when it keeps it, and what a first baseline holds |
| ProvenanceBaseline.OneMatchAtMost | scripts/check_provenance_fields.py:1559-1563 | on accepted relocations at most one matches any symbol |
| ProvenanceBaseline.PreviousIsAnyMatch | scripts/check_provenance_fields.py:2293-2300 | stopping at the first match therefore loses nothing |
| ProvenanceBaseline.LoadFields | scripts/check_provenance_fields.py:1567-1677 | of the lists in symbol order with sorted aliases, exactly those in which every locator names one field are accepted |
| ProvenanceBaseline.LocatorNamesOneField | scripts/check_provenance_fields.py:240-245 | on accepted fields the locator table maps each symbol and alias to its own field |
| ProvenanceBaseline.RelocatedLegacySymbols | scripts/check_provenance_fields.py:2285-2301 | the nested loops compute the table of moved symbols and their old names |
| ProvenanceBaseline.RunAudit | scripts/check_provenance_fields.py:2319-2395 | the loops compute the states and the PROV001, PROV003, PROV004 and PROV005 lists of the specification, each sorted |
| ProvenanceBaseline.BaselineFile.Update | scripts/check_provenance_fields.py:2528-2559 | a refusal names the new symbols and leaves the file alone; otherwise the file and the result are the updated baseline |
| ProvenanceBaseline.UpdateOnlyDeletes | scripts/check_provenance_fields.py:2546-2559 | a successful update of an existing baseline keeps the source revision and leaves a sorted subset of the old symbols |
| ProvenanceBaseline.UpdateThenAuditIsClean | scripts/check_provenance_fields.py:2537-2559 | with source and registry unchanged, the audit after a successful update reports neither PROV001 nor PROV003 |
| ProvenanceBaseline.UpdateIsIdempotent | scripts/check_provenance_fields.py:2546-2559 | updating a second time succeeds and changes nothing |
| ProvenanceBaseline.RefusedIffAuditFindsNewFields | scripts/check_provenance_fields.py:2345-2358 | the update refuses exactly when the audit reports PROV001, and names the same symbols |
| ProvenanceBaseline.RegisteredLegacyAfterUpdate | scripts/check_provenance_fields.py:2385-2395 | exactly which symbols an audit still reports as PROV005 after an update |
| ProvenanceBaseline.RegisteredLegacyHappens | scripts/check_provenance_fields.py:2385-2395 | a legal registry on which the update succeeds and the audit after it reports PROV005 |
| ScopeNodes.ScopeNodesOf | scripts/check_provenance_fields.py:1020-1028 | the explicit stack yields exactly the recursive left-to-right pre-order, with the total size of the pending trees as measure |
| ScopeNodes.PreorderHoldsScope | scripts/check_provenance_fields.py:1020-1028 | a node is yielded iff a path of children leads to it that enters no class, function or lambda |
| ScopeNodes.ParentsComeFirst | scripts/check_provenance_fields.py:1024-1028 | each entered statement is followed by its own nodes and then by those of the later statements |
| ToolLoop.ToolLoopAdapter.Execute | src/aec_bench/adapters/tool_loop.py:226-433 | every run, returning or raising, is accounted for by a history of turns that the configuration allows and the world produces; a returned result reports that history, and a raise happens only where the client, the tool or the advisor raises or no executor is there |
| ToolLoop.ToolLoopAdapter.CallTurn | src/aec_bench/adapters/tool_loop.py:247-363 | a turn with a tool call: its two entries, its counters and either the next state or the final outcome, a raising tool included |
| ToolLoop.ToolLoopAdapter.TextTurn | src/aec_bench/adapters/tool_loop.py:365-416 | a turn without one: text, failure, completion or the next state |
| ToolLoop.ToolLoopAdapter.HandleAdvisorCall | src/aec_bench/adapters/tool_loop.py:467-533 | the n-th advisor call is dispatched iff n is below the budget; failures consume budget |
| ToolLoop.ToolLoopAdapter.AdvisorFigures | src/aec_bench/adapters/tool_loop.py:441-465 | no figures without an advisor configuration, the client's own where it keeps them, else the exact counts |
| ToolLoop.ToolLoopAdapter.BuildResult | src/aec_bench/adapters/tool_loop.py:536-606 | every figure of the result is exact for the recorded responses or absent |
| ToolLoopMeaning.RunsEndAsAnswered | src/aec_bench/adapters/tool_loop.py:377-433 | no response but the last one asked for ends the run, a run returns only after `max_turns` responses or one that ends it, and its status, failure kind, error and raw output are those that its last response calls for |
| ToolLoopMeaning.StatusIff | src/aec_bench/adapters/tool_loop.py:399-433 | completed iff the last response is a final answer with text, empty iff one without, failed iff it fails or calls an undeclared tool, turn limit iff none of `max_turns` responses ends the run |
| ToolLoopMeaning.RaisesBecause | src/aec_bench/adapters/tool_loop.py:236-346 | a run raises only because the client, a tool, a missing executor or a dispatch within the advisor budget does |
| ToolLoopMeaning.TranscriptFollows | src/aec_bench/adapters/tool_loop.py:242-375 | the client first sees the prompts; each turn then adds exactly its call and the refusal, advice, tool error or tool output, or its text |
| ToolLoopMeaning.FiguresFollow | src/aec_bench/adapters/tool_loop.py:568-605 | the executor has run exactly the other calls in order, and every figure is exact for the client's responses |
| ToolLoopMeaning.ConfigMeans | src/aec_bench/adapters/tool_loop.py:228-231 | which settings are rejected, and the limits and tools of the others, eight turns by default |
| ToolLoopMeaning.AdvisorReportMeans | src/aec_bench/adapters/tool_loop.py:464-505 | the reported dispatches are the calls up to `max_uses`, with token totals iff no dispatch raised |
| ToolLoop.ToolLoopAdapter.EveryRunIsSafe | src/aec_bench/adapters/tool_loop.py:226-433 | whatever `execute` returns or raises: at most `max_turns` client calls, at most the allowed calls executed, only declared tools or the enabled advisor, transcripts that only grow with every call followed at once by its own result, and a failure kind iff not completed |
| ToolLoop.ExecutedWithinLimits | src/aec_bench/adapters/tool_loop.py:295-323 | no history executes more calls than allowed, or a call that is neither declared nor for the enabled advisor |
| ToolLoop.ToolRunsAreDeclared | src/aec_bench/adapters/tool_loop.py:259-346 | the executor is only handed declared tools, and never the intercepted advisor calls |
| ToolLoop.TranscriptIsPaired | src/aec_bench/adapters/tool_loop.py:249-356 | every call entry is followed immediately by a result entry with its id and name, and no result stands alone |
| ToolLoop.TranscriptGrows | src/aec_bench/adapters/tool_loop.py:235-244 | what the client sees in one turn begins what it sees later |
| ToolLoop.EndingIsConsistent | src/aec_bench/adapters/tool_loop.py:377-433 | a failure kind is absent iff the status is COMPLETED, and completion has output |
| ToolLoop.RefusedAtTheLimit | src/aec_bench/adapters/tool_loop.py:295-321 | a call is refused only when exactly the allowed number has been executed |
| ToolLoop.ConfiguredPositiveInt | src/aec_bench/adapters/runtime_limits.py:24-47 | a limit n is accepted exactly for a positive integer or its text, and no limit exactly for an absent setting |
| ToolLoop.HistoriesAgree | src/aec_bench/adapters/tool_loop.py:235-363 | a run is determined by its configuration and the answers it gets: two histories agree as far as both go |
| ToolLoop.ReplayReproduces | src/aec_bench/adapters/tool_loop.py:172-181 | replaying the responses of a finished run against the same tools and advisor neither raises nor ends otherwise: it has the same history |
| ToolUsage.ToolLoopUsage.Record | src/aec_bench/adapters/tool_loop.py:93-134 | recording a response keeps all seven figures and flags exact for the whole history |
| ToolUsage.ToolLoopUsage.Report | src/aec_bench/adapters/tool_loop.py:568-602 | a total or maximum is reported iff every response reported that dimension, and then it is the sum or maximum |
| ToolUsage.ReportGrows | src/aec_bench/adapters/tool_loop.py:93-134 | figure by figure, what one more response does to an exact report |
| ToolUsage.RecordKeepsTotals | src/aec_bench/adapters/tool_loop.py:137-149 | the running sum stays exact and its flag stays down after one missing figure |
| ToolUsage.RecordKeepsMaxima | src/aec_bench/adapters/tool_loop.py:152-160 | the same for the running maximum |
| ToolUsage.AdvisorUsage.RecordResult | src/aec_bench/adapters/advisor_usage.py:32-37 | a completed dispatch keeps the token totals exact, or unknown once unknown |
| ToolUsage.AdvisorUsage.MarkTokensUnknown | src/aec_bench/adapters/advisor_usage.py:39-42 | a failed dispatch makes both totals unknown without changing the number of calls |
| ToolUsage.UnknownForEver | src/aec_bench/adapters/advisor_usage.py:32-42 | after a failed dispatch no later history reports token totals |
| ToolUsage.InvokeAdvisor | src/aec_bench/adapters/tool_loop_local.py:114-141 | a call beyond the budget dispatches nothing; any other is counted before it is made, with its outcome recorded |
| ToolUsage.AdvisorTool.Invoke | src/aec_bench/adapters/tool_loop_local.py:114-141 | dispatches never exceed the budget over any sequence of calls, failed ones included |
| ToolUsage.ResponseRoundTrip | src/aec_bench/adapters/tool_loop.py:614-686 | reading back a written response gives the response, although defaults are left out of the payload |
| ToolUsage.ReplayRoundTrip | src/aec_bench/adapters/tool_loop.py:183-187 | a serialized replay client is restored (lines 609-611) with the same responses in the same order |
| ToolUsage.PayloadEntry | src/aec_bench/adapters/tool_loop.py:622-643 | each key holds its own value and is present exactly when the value is not at its omitted default |
| ToolUsage.FailureNameRoundTrip | src/aec_bench/adapters/tool_loop.py:641-642 | every failure kind is recovered from its value |
| Trajectory.Recorder.Record | src/aec_bench/adapters/tool_loop_local.py:600-610 | one locked call appends exactly the messages beyond the watermark, and the watermark becomes the longest snapshot; if the writer raises, what it has taken stays and the watermark does not move |
| Trajectory.Recorder.StartRun | src/aec_bench/adapters/tool_loop_local.py:517-517 | a new run resets the watermark and keeps what was published |
| Trajectory.PublishedIsPrefix | src/aec_bench/adapters/tool_loop_local.py:600-610 | snapshots of one history, in any order and with repeats, publish exactly the first `seen` messages, where `seen` is the longest length presented |
| Trajectory.PublishedOnceIff | src/aec_bench/adapters/tool_loop_local.py:600-610 | every snapshot is published from its start exactly when the snapshots come from one history |
| Trajectory.SecondAttempt | src/aec_bench/adapters/pydantic_ai_runtime.py:126-131 | what is published of a second attempt within one run are its messages beyond the length of the first |
| Trajectory.SecondAttemptCompleteIff | src/aec_bench/adapters/pydantic_ai_runtime.py:126-131 | nothing of it is lost iff it repeats the first attempt as far as both go |
| Trajectory.RestartLosesMessages | src/aec_bench/adapters/pydantic_ai_runtime.py:126-131 | a second attempt that takes another way loses its call and its result |
| Trajectory.InterleavingDoesNotMatter | src/aec_bench/adapters/tool_loop_local.py:603-609 | all interleavings of the threads' locked calls publish the same sequence |
| RetryLoop.RetryingRequest | src/aec_bench/adapters/direct_providers.py:242-327 | the requests sent form one phase, or two with the switch to streaming between them; every return reports exactly the number sent, absent for none; the outcome is the parsed answer of the last reply as it is, the error of a refusal or failed connection, or the exhausted budget, and earlier replies were ones to retry |
| RetryLoop.RunPhase | src/aec_bench/adapters/direct_providers.py:340-392 | one loop sends exactly the requests of a phase, stops only when it is settled, and counts the earlier requests in; time may pass before the first look at the clock |
| RetryLoop.EndingCountsRequests | src/aec_bench/adapters/direct_providers.py:323-327 | the reported number of calls on every way out of a phase, the hand-over included |
| RetryLoop.VerdictsExactly | src/aec_bench/adapters/direct_providers.py:278-321 | which replies switch to streaming, which are final (every status below 500 but 429), which raise, and exactly how long the others make it wait: the header in milliseconds, the one in seconds, or the backoff, at most the maximum |
| RetryLoop.EndingIsDecided | src/aec_bench/adapters/direct_providers.py:278-327 | a way out of a phase read off the last reply alone: the parsed answer with the call count set, status and first 200 characters of a refusal, the failed connection, or the exhausted budget when nothing was sent |
| RetryLoop.BackoffDoubles | src/aec_bench/adapters/direct_providers.py:475-478 | the backoff starts at the initial one and doubles up to the maximum |
| RetryLoop.WaitsFitBudget | src/aec_bench/adapters/direct_providers.py:265-321 | the waits before the last request of a phase together stay below the budget |
| RetryLoop.RequestBound | src/aec_bench/adapters/direct_providers.py:265-321 | with waits of at least w, a phase sends n requests only if (n - 1) w is below the budget |
| RetryLoop.LongPhaseSettles | src/aec_bench/adapters/direct_providers.py:346-386 | a phase whose waits reach the budget is over |
| RetryLoop.BackoffBound | src/aec_bench/adapters/direct_providers.py:461-479 | without retry headers the waits are the capped doubling backoffs and fit the budget |
| RetryLoop.PositiveBackoffBound | src/aec_bench/adapters/direct_providers.py:475-478 | without headers and with both settings at least w, at most ceil(budget / w) requests are sent |
| RetryLoop.DefaultRequestBound | src/aec_bench/adapters/direct_providers.py:32-34 | with the defaults 120/2/30 and no header a phase sends at most seven requests |
| RetryLoop.DefaultBoundIsReached | src/aec_bench/adapters/direct_providers.py:319-321 | an outage with instant failures really leads to seven |
| ShellQuote.QuotedIsOneWord | src/aec_bench/agents/_shell.py:5-12 | the shell reads the quoted script as one word equal to the script, for exactly the scripts without NUL |
| ShellQuote.QuotedAnywhere | src/aec_bench/agents/_shell.py:11-12 | inside a longer command line the quoted script adds exactly itself to the word being read |
| ShellQuote.EscapedText | src/aec_bench/agents/_shell.py:11-11 | within the quotation the escaped text reads as the text |
| ShellQuote.ArgumentsRoundTrip | src/aec_bench/agents/_shell.py:5-12 | a list of quoted arguments is read back unchanged, empty arguments included |
| DatasetOverlap.NeighboursSuffice | src/aec_bench/contracts/dataset.py:101-105 | on sorted part lists the neighbour scan rejects iff some pair anywhere overlaps |
| DatasetOverlap.AcceptedIffDisjoint | src/aec_bench/contracts/dataset.py:92-106 | a manifest of portable paths is accepted iff identifiers are unique and no path equals or contains another; which of the three complaints is raised |
| DatasetOverlap.PrefixIsCovering | src/aec_bench/contracts/dataset.py:27-35 | for portable paths a prefix of parts means: the same text, a text that continues after a slash, or the path "." |
| DatasetOverlap.ValidPathIff | src/aec_bench/contracts/dataset.py:27-35 | a path is portable iff it has no backslash and is "." or consists of parts between single slashes, none empty, "." or ".." |
| DatasetOverlap.PartsAreInjective | src/aec_bench/contracts/dataset.py:30-35 | two portable paths with the same parts are the same text |
| Adaptation.AcceptedIffWellFormed | src/aec_bench/contracts/adaptation.py:17-67 | specifications are accepted exactly when axes and values are distinct and non-empty and the seed picks one value of each axis |
| Adaptation.ComplaintsMean | src/aec_bench/contracts/adaptation.py:48-67 | exactly which specifications get which complaint |
| Adaptation.KeySteps | src/aec_bench/contracts/adaptation.py:107-107 | the variation key names each axis with its value, in axis order |
| Adaptation.ExpandAdaptationSpec | src/aec_bench/contracts/adaptation.py:88-118 | the loop with its skipped seed produces exactly the candidate list that the following rows describe, in its order |
| Adaptation.ExpansionCovers | src/aec_bench/contracts/adaptation.py:93-96 | the candidates' variations are exactly all choices of one value for each axis, without the seed unless it is included |
| Adaptation.ExpansionCount | src/aec_bench/contracts/adaptation.py:93-96 | there are as many candidates as the product of the axis sizes, less one unless the seed is included |
| Adaptation.ExpansionDerives | src/aec_bench/contracts/adaptation.py:93-116 | candidates come in lexicographic axis order without a repeated variation, and replaying a lineage on the seed gives the variation, whose key is that of its values |
| Adaptation.LineageRoundTrip | src/aec_bench/contracts/adaptation.py:98-106 | replaying the lineage, each step from its parent value, derives the variation |
| Adaptation.LineageSteps | src/aec_bench/contracts/adaptation.py:98-106 | the steps are exactly the differing axes with old and new value, in axis order |
| Adaptation.ProductMembers | src/aec_bench/contracts/adaptation.py:93-93 | the product holds each combination, and as many as the sizes multiply to |
| Adaptation.ProductAscending | src/aec_bench/contracts/adaptation.py:93-93 | the product comes in lexicographic order of value positions |
| Catalogue.FlattenSnapshot | src/aec_bench/catalogue.py:512-549 | flattening raises exactly on illegal snapshots; otherwise it holds every entry under its own kind and id and nothing else |
| Catalogue.FlattenCollection | src/aec_bench/catalogue.py:524-548 | one collection: an error means an illegal snapshot, success adds exactly its entries |
| Catalogue.DiffFlattened | src/aec_bench/catalogue.py:557-581 | raises iff some entity of both snapshots has a lower version than before, naming the first such one; otherwise the comparison of the two snapshots |
| Catalogue.DiffCatalogue | src/aec_bench/catalogue.py:552-581 | compares only legal snapshots, and on these raises iff some version dropped, naming the first such entity |
| CatalogueMeaning.LegalMeans | src/aec_bench/catalogue.py:512-549 | the accepted snapshots: schema 1, four lists of valid entries of their kinds, no id and no key shared among all of them |
| CatalogueMeaning.ValidEntryIff | src/aec_bench/catalogue.py:529-540 | the accepted entries, field by field |
| CatalogueMeaning.ComparisonMeans | src/aec_bench/catalogue.py:560-580 | a change is reported for exactly the entities with a Python difference, with exactly the differing fields, both values and the current key |
| CatalogueMeaning.ListsMean | src/aec_bench/catalogue.py:557-558 | added and removed are exactly the entries of new and of lost entities |
| CatalogueMeaning.ListsInOrder | src/aec_bench/catalogue.py:557-560 | all three lists come in the order of kind and id |
| Catalogue.PatchGivesCurrent | src/aec_bench/catalogue.py:557-581 | applying removed, changed and added to the previous snapshot gives the current entities and, field by field, Python-equal values with missing read as null |
| Catalogue.PatchIsExact | src/aec_bench/catalogue.py:227-321 | against entries as the code writes them, every field of the patched snapshot is exactly the current one, missing read as null |
| Catalogue.PatchIsCurrentIff | src/aec_bench/catalogue.py:552-581 | the patched snapshot is then the current one iff no entity has lost a field |
| Catalogue.WrittenPatchIsCurrent | src/aec_bench/catalogue.py:289-321 | between two snapshots that the code has written the comparison loses nothing |
| Catalogue.UndoGivesPrevious | src/aec_bench/catalogue.py:557-581 | the old values are reported as well: the comparison read backwards turns the current snapshot into the previous one |
| Catalogue.EmptyComparison | src/aec_bench/catalogue.py:557-581 | nothing is reported iff both snapshots hold the same entities with Python-equal fields |
| Catalogue.FieldsAreRestored | src/aec_bench/catalogue.py:567-571 | setting the reported fields turns the old entry into the new one |
| Catalogue.OneBecomingTrueIsNotReported | src/aec_bench/catalogue.py:570-570 | between two legal snapshots a change from 1 to true stays unreported, although the patched snapshot differs; `semantic_snapshot` writes no booleans |
| Configuration.MergeConfiguration | src/aec_bench/adapters/config.py:14-22 | the loop and its recursion compute the merge, in whatever order the keys come |
| Configuration.MergeAtPath | src/aec_bench/adapters/config.py:14-22 | the value of the merge on every path of keys, from the values on that path in both inputs |
| Configuration.AtMeans | src/aec_bench/adapters/config.py:14-22 | a path holds a value iff mappings inside each other lead along its keys to that value |
| Configuration.EmptyIsIdentity | src/aec_bench/adapters/config.py:14-22 | the empty mapping is neutral on both sides |
| Configuration.MergeTwice | src/aec_bench/adapters/config.py:14-22 | the same overrides twice are the same as once |
| Configuration.MergeIsOverrides | src/aec_bench/adapters/config.py:14-22 | the merge equals the overrides iff they replace all of the defaults |
| Configuration.MergeIsDefaults | src/aec_bench/adapters/config.py:14-22 | the merge equals the defaults iff the overrides repeat what is there |
| Configuration.MergeAssociativeIff | src/aec_bench/adapters/config.py:14-22 | merging three configurations is associative iff nothing but a complete replacement follows a hidden mapping |
| Configuration.MergeAssociative | src/aec_bench/adapters/config.py:14-22 | in particular when mappings only meet mappings in the first two |
| Configuration.GroupingMatters | src/aec_bench/adapters/config.py:18-21 | a scalar between two mappings makes the grouping visible |

## Left out

- ProjectConstants.ResolvePasses: requires that the loop stops within some number of passes, because it does not stop on every project; StopsIffQuietStateExists, OrderedStops and CyclesAddNothing say when it does. For projects with a dependency cycle that only copies values no condition is given, because it depends on the order of modules.
- ProjectConstants.ResolveProjectConstants: what the rewritten tables of a project with shadowed imports evaluate to is not characterised.
- LiteralStrings.LiteralIsMeaning: the syntax tree is reduced to the node shapes that the code distinguishes, with integer constants by their value.
- ProvenanceBaseline.LoadFields: models the checks on order, aliases and locators; categories, statuses and metadata of a field are independent checks on one entry.
- ProvenanceBaseline.RunAudit: covers the states and PROV001, PROV003, PROV004 and PROV005; registry drift, the semantic heuristics and the comparison with a base revision are large rule tables.
- ProvenanceBaseline.BaselineFile.Update: a baseline file is a sorted list without repeats, as `load_baseline` demands; reading and writing JSON is not modelled.
- ToolLoop.ToolLoopAdapter.Execute: what the advisor is shown (the transcript window and the prompt) and the log lines are not modelled, and `client.advisor_usage()` is a fixed answer.
- ToolUsage.AdvisorTool.Invoke: calls are made one after the other; the counter has no lock, so nothing is claimed for parallel tool threads.
- ToolUsage.ResponseRoundTrip: arguments are JSON values by Python object, and payloads that were not written by the code may be malformed in ways not modelled.
- Trajectory.Recorder.Record: a message counts as written or not; a writer that fails in the middle of one message is not modelled.
- RetryLoop.RetryingRequest: the clock never runs backwards, a run is cut off when the exchanges given to it end, and the text test for streaming errors is a flag of the error.
- RetryLoop.RequestBound: says nothing when waits can be zero, because then the number of requests is bounded only by the time that the requests take.
- ShellQuote.QuotedIsOneWord: the lexer refuses expansions, operators, patterns and comments outside quotes instead of interpreting them.
- DatasetOverlap.AcceptedIffDisjoint: blank identifiers and the other fields of a manifest are checked elsewhere.
- Adaptation.ExpandAdaptationSpec: blank strings are not singled out, and nothing is claimed about the uniqueness of `variation_key`, whose separators can occur in values.
- Catalogue.PatchGivesCurrent: agreement is up to Python equality, because the comparison cannot see finer differences between entries that the code has not written; PatchIsExact is the exact form.
- Configuration.MergeConfiguration: values are immutable, so the deep copies that prevent aliasing have nothing to do.
- JSON numbers are integers and exact reals; NaN and rounding are not represented.
- Error messages appear as error kinds with the names involved, not as text.
- HTTP, provider SDKs, agent internals, subprocesses, containers and Git are arbitrary inputs.
- Command line, terminal, web and report rendering have no property beyond their text.
- Single-record validators, hashing, canonical JSON, atomic writes and secret redaction are not modelled.
