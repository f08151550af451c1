# Verified model of gps, the solver engine of dep

`gps` answers one question: which version of every project that an import graph leads to, and
which of its packages, satisfy all the constraints that the projects put on each other.  This
project states in Dafny what five parts of it do, and proves what they promise.

| part | modules | what it is |
|---|---|---|
| the solver | `World`, `SolverState`, `SolverInvariants`, `Solution`, `Progress`, `VersionQueues`, `Selections`, `Transitions`, `RootSelection`, `Staleness`, `Candidates`, `Runs`, `CrashingRun`, `TwoSources`, `Solver`, `Imports` | the backtracking search over selections, edges, version queues and the worklist, and the dependencies it is given |
| versions and constraints | `Versions`, `Ranges`, `Unifier` | eight kinds of constraint, and their matching through shared revisions; ranges of semantic versions |
| reachability | `PackageGraph`, `ExplorerMarks`, `Explorer` | the depth-first exploration that lists imports and poisons the paths to broken packages |
| streams and trees | `LineEndings`, `VerifyTree` | the CRLF filter that works in place, and the check of a vendor directory against a lock |
| indexes and protocols | `Strings`, `IgnoredRules`, `LockDiff`, `SourceGateway` | ignore rules in a trie, the merge of two locks, and the single-flight registry of sources |

`dafny verify dfyconfig.toml` checks all of it.

## How it is built

Whatever changes its fields in the source is a class here (`Solver`, `Selection`, `Unselected`,
`VersionQueue`, `Explorer`, `LineEndingReader`, `FsNode`), with methods that follow the source
step by step; what only computes is a function.  Each method is tied by its contract to a function
or a predicate on plain values, and the theorems are lemmas about those.  A map of Go, whose order
of iteration is not defined, is walked by picking any element that is left, so what is proved
holds for every order.

What lies outside is a parameter.  `World.World` holds the source bridge as fixed functions:
version lists, package trees, reach maps, manifests, locks, the project that an import leads to.
`World.Lawful` says what the solver is owed by them:

* the version list of a project gives each name one revision;
* reach maps are transitively closed, which `Explorer.ToReachMap` proves of its results on acyclic
  import graphs;
* an import leads to another project, under an identifier with that project's root, and with a
  constraint as a manifest can state it, and to some project when the grouping of packages into
  dependencies succeeds, which `Imports` proves of that grouping;
* the semver library obeys the laws of `Versions.Semver`: intersecting a range with one version
  agrees with matching it, equality is an equivalence that matching respects, and a version in the
  intersection of two ranges lies in both.  The last is a hypothesis: `Ranges.MeetIsExact` says for
  which versions the vendored library keeps it.

`World.Bounded` says that finitely many projects and packages can come up and that version lists
are finite; termination needs nothing else.

## What is proved

* **Safety of the solver.**  `SolverInvariants.Inv` holds in every state between two steps: the
  edge stacks mirror the selection, all entries for a project carry one version, every live edge
  to a selected project is satisfied by that version and agrees with the first edge on the source,
  every revision that an import asks for exists in its source,
  every package that a live edge names is selected or queued, and the case-fold map has exactly
  the folds of the projects with a live edge.  Two of those differ only in case if and only if a
  single entry of the stack depends on two that do.  The version queues line up with the selection
  one to one, so the source's canary for the opposite cannot fire, and the root project is never
  unselected.  What `Solve` returns is a solution: one version per project, everything that is
  needed, at versions that all constraints admit.  All who want a project agree on its source.
* **One source per project, if the worklist stayed tidy.**  After a solve all of whose unselections
  were of a tidy worklist, every project of the result is there once, taken from the source that
  all who want it agree on.  After an untidy one that can fail: `TwoSources.SolveCanMixSources`
  gives a world and the run to a solution with one project from two sources, although the checks
  are documented to rule that out (gps/satisfy.go:198-201).
* **Termination of the solver**, over every order in which the worklist may be served.
* **When a solve gives up.**  Until the first refusal a solve serves each entry of the worklist at
  its first candidate that passes the checks: the locked version, the preferred one, then the list.
  If no state on such a way up refuses an entry, the solve returns what is selected at its end; so
  unsolvable and crash both take a refusal, and `RefusalHasReason` says what that is.  After one, the
  queues of those it blames, and those already marked, are dropped only with no version left.
* **Undoing.**  `unselectLast` after `selectAtom` restores the stacks and the case-fold map, in
  every state of a solve.
* **When the solver crashes.**  `findValidVersion` runs into an index out of range exactly when it
  is handed no version at all, or no version passes and no live edge names the project.  Starting
  from the root project every entry of the worklist is for the identifier of the first live edge on
  its project, a selection keeps it so, and an unselection keeps it so if and only if the worklist
  is tidy: each entry for a project that loses its last edge is the only one, and for exactly the
  packages of the dependency that goes.  A solve can only crash after an untidy unselection, or on
  a project without versions.  It does happen: `CrashingRun.SearchCanCrash` gives the world and the
  run, with the entries taken in the order of the worklist.
* **The composite constraint is sound.**  A version that matches it matches exactly those of the
  constraints that it does not miss, and it misses a pair of its own name at another revision.
  `Unifier.StalePairEscapes` gives a version that does.  No listed version does, and where no
  constraint is a pair none does: a manifest states no pair (`World.Declared`), so that input does
  not come up in the solver here.  The unifier's matching is an equivalence on listed versions.
* **Every package goes into one dependency**, under a root above it; the grouping fails exactly
  when the project of a package is unknown and no project of an earlier package lies above it.
* **Reach maps are exact** on acyclic graphs; on every graph the exploration ends, what it lists is
  true, the cause of every problem is a real chain of imports, and without back-propagation exactly
  the packages without an error are kept.
* **The CRLF filter is right if and only if** no empty read comes between a CR and its LF, and the
  error does not come together with a last piece that ends in CR.
* **The report on a vendor directory** is given exactly, for every tree, and comes if and only if
  nothing in the tree stops the walk.
* **The ignore trie agrees with the list of rules if and only if** no literal rule hides the path
  from a wildcard; that takes a character that sorts below the asterisk.
* **The difference of two locks** is the multiset difference of their roots, with exactly the real
  changes of the common ones.
* **The source registry**: no name without a gateway while the lock is free, no gateway replaced,
  one worker to a name, no deadlock.  Once no more calls come in, all that are there return after
  at most eleven steps each, however they are interleaved, and a caller that folded in returns the
  result of its worker.

Where the code and its documentation differ, the model follows the code.  The comment in
`getSourceGatewayFor` says that two writers can only record the same URL for a name
(gps/source.go:115-119); no such thing is assumed or claimed here.  `DiffProjects` is documented
as returning nil when there are no differences (gps/lockdiff.go:169-170); a change of branch alone
is one that it does not report.  Wildcard rules are documented as covering every path with
their prefix (gps/pkgtree/ignored_ruleset.go:20-22); `IgnoredRules.LiteralHidesPath` gives one
that is not covered.

## Model

| member | source | states |
|---|---|---|
| `Versions.VersionMatchesSymmetric` | gps/version.go:141-559 | whether two versions match does not depend on which acts as the constraint |
| `Versions.FirstOfUnionIs` | gps/version_unifier.go:232-273 | a union against any constraint yields the non-empty intersection of the first member that overlaps it, and is empty exactly when none does |
| `Versions.FirstOfUnionsIs` | gps/version_unifier.go:232-273 | the same for two unions: the first pair that matches, in the order of the two loops |
| `Versions.FirstInRangeIs` | gps/constraints.go:193-226 | a range against a union yields the first member in the range, and nothing exactly when none is |
| `Versions.MatchesAnyIsIntersect` | gps/version.go:141-608 | over all kinds of constraint `MatchesAny` holds exactly when `Intersect` is not none, except for any against none |
| `Versions.EmptinessIsSymmetric` | gps/constraints.go:170-318 | whether an intersection is empty does not depend on the order, although the constraint returned may |
| `Ranges.MeetIsExact` | vendor/github.com/Masterminds/semver/range.go:100-172 | the intersection of two ranges has every version that both have; of those it has, both have exactly the ones that are not excluded by either and, if prereleases, only where the lower bounds have the same numbers |
| `Ranges.Intersect` | vendor/github.com/Masterminds/semver/range.go:100-172 | computes that intersection, version by version |
| `Ranges.NarrowedIsBoth` | vendor/github.com/Masterminds/semver/range.go:109-138 | the narrower bounds are exactly the bounds of both |
| `Ranges.SomeGoAstray` | vendor/github.com/Masterminds/semver/range.go:62-68 | a prerelease, and an excluded version, that an intersection has and one of the ranges has not |
| `Unifier.PairRevision` | gps/version_unifier.go:42-62 | the loop collects exactly the listed pairs at a revision, in order |
| `Unifier.UnionOf` | gps/version_unifier.go:146-180 | the union of a version is its revision with every listed pair there, or the version alone when its name is not listed |
| `Unifier.UnionsMatch` | gps/version_unifier.go:211-227 | the unions of two versions match exactly when both stand for one revision, or for one unlisted name |
| `Unifier.MatchesIsSameVersion` | gps/version_unifier.go:67-86 | between listed versions `matches` holds exactly when they are the same version |
| `Unifier.MatchesIsEquivalence` | gps/version_unifier.go:67-86 | so it is reflexive, symmetric and transitive there |
| `Unifier.UMatchesAnyIsUIntersect` | gps/version_unifier.go:89-139 | the unifier's overlap is the non-emptiness of its intersection |
| `Unifier.IntersectIsSettled` | gps/version_unifier.go:115-139 | intersecting never lets a union or an unlisted pair out |
| `Unifier.DirectMeet` | gps/version.go:141-608 | the intersection of two versions, without a list: what it matches the first matches, and the second but for the cases named; what both match it matches, bare names aside |
| `Unifier.IntersectIsSound` | gps/version_unifier.go:115-139 | a version that matches an intersection matches the left side, across revision, branch, tag and range; and the right side if and only if that is not a pair of the version's name at another revision |
| `Unifier.CompositeIsExact` | gps/selection.go:146-166 | of the constraints that are folded, a version that matches the fold matches exactly those that are not a pair of its name at another revision |
| `Unifier.CompositeIsSound` | gps/selection.go:146-166 | so every one of them, when the version is listed or no constraint is a pair |
| `Unifier.StalePairEscapes` | gps/version_unifier.go:115-139 | the failing input: an unlisted pair of a branch at an outdated revision passes a composite and fails one of its constraints; it takes a pair as a constraint, which no manifest states |
| `World.DepsAreLawful` | gps/solver.go:657-733 | dependencies lead away from the project, each under its root, with some package |
| `World.ImportsOfClosure` | gps/solver.go:657-733 | dependencies computed again from the enlarged package list are the same |
| `World.LawsCanBeMet` | gps/bridge.go:88-190 | what is asked of the outside can be had, by three projects that need each other |
| `SolverInvariants.SelectKeepsInv` | gps/solver.go:1250-1347 | selecting an atom that passes the checks keeps every invariant |
| `SolverInvariants.UnselectKeepsInv` | gps/solver.go:1349-1382 | popping the last entry keeps every invariant, as long as it is not the root project |
| `SolverInvariants.UnselectUndoesSelect` | gps/solver.go:1250-1382 | `unselectLast` after `selectAtom` restores the project stack, every edge stack and the case-fold map |
| `SolverInvariants.PoppedIsQueued` | gps/solver.go:1349-1382 | what is popped is queued again, with the enlarged package list |
| `SolverInvariants.PushKeepsSafe` | gps/satisfy.go:13-77 | the checks are enough: every edge, old or new, is satisfied by the version selected |
| `SolverInvariants.CheckedRevisionsExist` | gps/satisfy.go:318-338 | the checks pass only if every dependency on a revision has that revision in its source |
| `SolverInvariants.RevisionsDecide` | gps/satisfy.go:318-338 | with all else in order they fail exactly for a revision that is not there |
| `SolverInvariants.RefusalHasReason` | gps/satisfy.go:13-77 | an atom that fails the checks has one of the reasons that the checks are for |
| `SolverInvariants.ChecksKeepOverlap` | gps/satisfy.go:148-177 | after a checked selection the composite constraint on every dependency is still not empty |
| `SolverInvariants.PushKeepsCovered` | gps/solver.go:1286-1341 | no package that a live edge names is lost by a selection |
| `SolverInvariants.PopKeepsCovered` | gps/solver.go:1349-1382 | nor by an unselection, although it drops worklist entries |
| `SolverInvariants.CaseClashesAreInner` | gps/satisfy.go:229-274 | no two projects with a live edge differ only in case if and only if no single entry depends on two that do, since the dependencies of one atom are not checked against each other |
| `SolverInvariants.FoldsAreDetermined` | gps/selection.go:75-102 | the selection determines which folds the map has, and the whole map if no entry depends on two projects that differ only in case |
| `Solution.EmptyWorklistIsSolution` | gps/solver.go:499-617 | a state with an empty worklist is a solution: one version per project, all that is needed is there, at versions all constraints admit; revisions that imports ask for exist; and all the identifiers under which a project is wanted agree with one of them, from which the project is taken as `Staleness.CleanHasOneSource` says |
| `Solution.SourcesAgree` | gps/satisfy.go:202-226 | whoever wants a project, the root project or an import of a package in the solution, agrees on the source with all others who want it; that it is taken from there is `Staleness.CleanHasOneSource` |
| `Solution.CollectedIsClosed` | gps/solver.go:590-617 | every package in the result has what it imports, inside its project and outside, in the result |
| `Progress.RankFalls` | gps/solver.go:492-598 | cutting the queue stack and putting a queue with fewer versions on top lowers its rank |
| `Progress.PackageStepProgresses` | gps/solver.go:549-597 | adding packages to a selected project requires a new package, or shortens the worklist |
| `Progress.StackIsBounded` | gps/solver.go:492-598 | there are never more projects selected than can come up |
| `VersionQueues.VersionQueue.New` | gps/version_queue.go:28-59 | a new queue has the locked version, the preferred one, then the list without them, to try |
| `VersionQueues.VersionQueue.WithoutKnown` | gps/version_queue.go:94-124 | the in-place deletions leave exactly the versions that are neither locked nor preferred, in order |
| `VersionQueues.UnseenIs` | gps/version_queue.go:94-124 | as often as in the list, but for the locked and the preferred version |
| `VersionQueues.UnseenOfParts` | gps/version_queue.go:94-124 | and in the order of the list |
| `VersionQueues.VersionQueue.Advance` | gps/version_queue.go:71-137 | exactly the front of what remains is used up, whether or not the list is loaded now; and when the failure mark is reset |
| `VersionQueues.VersionQueue.IsExhausted` | gps/version_queue.go:144-149 | exhausted means that nothing remains |
| `Selections.Selection.PushDep` | gps/selection.go:83-91 | pushes on one edge stack, and enters the fold of a project with its first edge |
| `Selections.Selection.PopDep` | gps/selection.go:93-102 | pops from one edge stack, and drops the fold with the last edge |
| `Selections.Selection.GetRequiredPackagesIn` | gps/selection.go:110-128 | counts for each package the edges that name it |
| `Selections.CountedOnceIsNew` | gps/solver.go:1310-1321 | a package counted once after a push was not named before it |
| `Selections.Selection.GetConstraint` | gps/selection.go:146-166 | the loop computes the composite constraint of all edges |
| `Selections.Selection.SelectedEntry` | gps/selection.go:175-182 | finds the entry at which a project was selected |
| `Selections.Unselected.Remove` | gps/selection.go:221-242 | removes one entry with that identifier and exactly that package list, if there is one |
| `Solver.Solver.Fail` | gps/solver.go:1228-1247 | marks the oldest queue for a project, and no other |
| `Solver.Solver.CheckAtomAllowable` | gps/satisfy.go:81-105 | passes exactly when the version matches the composite constraint; otherwise marks exactly the queues of the dependers whose constraints it breaks |
| `Solver.Solver.CheckRequiredPackagesExist` | gps/satisfy.go:108-145 | passes exactly when every package that an edge names exists without error |
| `Solver.Solver.CheckIdentMatches` | gps/satisfy.go:202-226 | passes exactly when the source agrees with that of the first edge; otherwise marks exactly the dependers of the atom |
| `Solver.Solver.CheckRootCaseConflicts` | gps/satisfy.go:229-274 | passes exactly when no other project with a live edge has the same folded root; otherwise marks exactly the dependers of that project |
| `Solver.Solver.CheckDepsConstraintsAllowable` | gps/satisfy.go:148-177 | passes exactly when the new constraint overlaps the composite; otherwise marks exactly the dependers whose constraints are disjoint from it |
| `Solver.Solver.CheckDepsDisallowsSelected` | gps/satisfy.go:181-197 | passes exactly when the version already selected matches the new constraint; otherwise marks exactly that project |
| `Solver.Solver.CheckPackageImportsFromDepExist` | gps/satisfy.go:277-315 | passes exactly when the version already selected has the packages |
| `Solver.Solver.Check` | gps/satisfy.go:13-77 | the verdict of all checks together; exactly the queues of the projects that the first failing check blames are marked, for any order of the dependencies |
| `Solver.Solver.SelectAtom` | gps/solver.go:1250-1347 | takes the state through exactly the selecting transition |
| `Solver.Solver.UnselectLast` | gps/solver.go:1349-1382 | takes the state through exactly the unselecting transition |
| `Solver.Solver.SelectRoot` | gps/solver.go:622-655 | sets up a state with every invariant, with all that the root project needs on the worklist |
| `RootSelection.RootIsInv` | gps/solver.go:622-655 | the state after the root project is pushed satisfies every invariant |
| `Solver.Solver.FindValidVersion` | gps/solver.go:923-961 | the version found is the first of the queue that passes the checks; it is found if and only if one passes; the source crashes if and only if the queue is empty from the start, or none passes and no edge names the project; when none passes the project that first asked is marked |
| `Solver.Solver.GetLockVersionIfValid` | gps/solver.go:976-1043 | when the root lock has a say, and which version it is: the locked one, or for a revision that the constraints do not allow the first version listed at it that they do |
| `Candidates.LockForIs` | gps/solver.go:976-1043 | the same of the version that every queue is made with |
| `Solver.Solver.PreferredVersion` | gps/solver.go:836-883 | for a project of the root, the last version that the lock of a depender has for it; else the one the worklist entry carries |
| `Candidates.PreferredIs` | gps/solver.go:836-862 | what a project of the root gets: the last entry for it in the lock of the last depender whose lock has it, the root left out |
| `Candidates.NewEntryPrefers` | gps/solver.go:1271-1339 | what another entry carries: the last word on that dependency in the lock of the atom that brought it |
| `Solver.Solver.MakeQueue` | gps/solver.go:804-883 | there is a queue unless there is no code, no source to change from, or no version to begin with; it has the locked and the preferred version |
| `Solver.Solver.CreateVersionQueue` | gps/solver.go:804-913 | a queue that is made stands at the first candidate that passes the checks: the locked version if that passes, else the preferred one when nothing is locked, unless the constraints come down to a revision, which comes first; the source crashes if and only if there is nothing to try, or none passes and no edge names the project |
| `Solver.Solver.Retry` | gps/solver.go:1105-1127 | the project is selected again at the first later version of its queue that passes the checks; when there is none, all of them fail, and the source crashes if and only if there was one to try and no edge names the project |
| `Solver.Solver.RetryTop` | gps/solver.go:1086-1127 | the project of the top queue is selected again with fewer versions left, or its queue is dropped |
| `Solver.Solver.Backtrack` | gps/solver.go:1046-1148 | keeps every invariant and the alignment of queues and selection, and lowers the rank of the stack; what is left is the bottom of the stack, and of the queues that were marked only those with no version left are gone; it gives up only with no queue left |
| `Solver.Solver.AddProject` | gps/solver.go:516-548 | keeps every invariant and lowers the rank; when the entry is refused, the queue of the project that first asked, and those marked, are dropped only with no version left |
| `Solver.Solver.AddPackages` | gps/solver.go:549-597 | keeps every invariant; the rank falls, or stays while fewer packages are unrequired or the worklist is shorter; when the packages are refused, the queues of those blamed and those marked are dropped only with no version left |
| `Solver.Solver.Step` | gps/solver.go:492-598 | one round of the loop, for any entry of the worklist; it fails only after a refusal |
| `Solver.Solver.Run` | gps/solver.go:492-598 | the loop ends, with an empty worklist, or after a refusal with no queue left to go back to |
| `Solver.Solver.UnselectOne` | gps/solver.go:1349-1382 | keeps every invariant, and leaves nothing stale if and only if the worklist was tidy before |
| `Solver.Solver.Solve` | gps/solver.go:486-618 | what is returned is a solution; where no entry is ever refused on the way up, it is what is selected there, so that unsolvable or a crash takes a refusal; if no unselection was untidy, each project of the result is taken once, from the source that all who want it agree on; it crashes only after an untidy unselection, on an entry that no edge names, or on a project without versions |
| `Candidates.RefusedOrServed` | gps/solver.go:510-598 | every entry of the worklist is refused, or can be served, never both |
| `Staleness.RootIsClean` | gps/solver.go:622-655 | at the start every entry of the worklist is for the identifier of the first edge on its project |
| `Staleness.SelectKeepsClean` | gps/solver.go:1250-1347 | selecting a project under the identifier of its first edge keeps it so |
| `Staleness.UnselectKeepsClean` | gps/solver.go:1349-1382 | unselecting keeps it so if and only if each entry for a project that loses its last edge is the only one, for exactly the packages of the dependency that goes |
| `Staleness.CleanHasOneSource` | gps/satisfy.go:198-226 | then each project of the result is there once, under an identifier that all who want it agree on |
| `CrashingRun.SearchCanCrash` | gps/solver.go:923-961 | a lawful world, and the run of a solve in it, each entry taken ahead of all others, to an entry which no edge names and no version of which passes |
| `TwoSources.SolveCanMixSources` | gps/solver.go:549-597 | a lawful world, and the run of a solve in it to an empty worklist and a solution that has a project from two sources, one of which no one wants |
| `Runs.UnselectsAndLeaves` | gps/solver.go:1349-1382 | popping an atom leaves an entry for other packages than its dependency names on the worklist, and is untidy |
| `Solver.Solver.CollectProjects` | gps/solver.go:600-617 | collects the packages of each selected atom, the root project left out |
| `Imports.OverridesWin` | gps/constraints.go:420-453 | what an override sets, and only that, comes from the override, for all projects alike; the rest is left alone, and overriding again changes nothing |
| `Imports.OverrideAll` | gps/constraints.go:403-415 | one working constraint for each project of a manifest, with the source and the constraint of its override where these are set |
| `Imports.PathPrefixTest` | gps/typed_radix.go:82-92 | the length test is right exactly when the path is not the prefix with a slash alone after it |
| `Imports.IntersectConstraintsWithImports` | gps/solver.go:740-802 | the walk over the trie ends with every reached package outside the standard library, and nothing else, in a dependency whose root lies above it, under the override's source and constraint where set, else the manifest's, else none; it fails if and only if the project of a package is unknown and none found before it lies above it |
| `Imports.PackagesAreConserved` | gps/solver.go:740-802 | each package is in one dependency only, that of its project where the manifest or the deduction give it one |
| `Imports.LeadsToOne` | gps/solver.go:740-802 | a package leads to one project, whose root lies above it; where every package beneath a deduced root can be deduced to it, that is the project of the manifest or of the deduction |
| `Imports.ConservesIsGroups` | gps/solver.go:740-802 | the dependencies are the packages grouped by the projects they lead to |
| `Imports.OneReach` | gps/solver.go:721-729 | sorting gives the walk one sequence for a set of packages, so its outcome is a function of the set |
| `Imports.DependenciesOf` | gps/solver.go:721-802 | the dependencies, and when there are none, are exactly those that the solver's world is given; each has the override's source and constraint where these are set, else what the manifest says, else no source and any version |
| `Imports.NoSelfDependency` | gps/solver.go:740-802 | packages outside a project never lead back to it |
| `PackageGraph.ClosedIsExact` | gps/pkgtree/pkgtree.go:728-1052 | true lists that are closed under imports are exactly the unions over the packages reached |
| `PackageGraph.SafeIsNotDoomed` | gps/pkgtree/pkgtree.go:728-1052 | packages that import only each other, free of errors, reach no broken one |
| `PackageGraph.ProblemIsDoom` | gps/pkgtree/pkgtree.go:747-832 | a problem with a real cause is a broken package in reach |
| `PackageGraph.ExactIsClosed` | gps/solver.go:657-733 | an exact reach map with errors propagated is closed as the solver needs it |
| `ExplorerMarks.PushKeepsMarks` | gps/pkgtree/pkgtree.go:892-908 | pushing what a package imports into every set on the path keeps all lists true and nested |
| `ExplorerMarks.EnterKeepsMarks` | gps/pkgtree/pkgtree.go:876-908 | entering an error-free package keeps the marks |
| `ExplorerMarks.LeaveKeepsMarks` | gps/pkgtree/pkgtree.go:910-940 | leaving it does, with the package finished and absorbed by all on the path |
| `ExplorerMarks.WhitePoisonKeepsMarks` | gps/pkgtree/pkgtree.go:789-803 | poisoning from a broken package gives every package on the path a real cause |
| `ExplorerMarks.BlackCauseIsOk` | gps/pkgtree/pkgtree.go:809-832 | connecting to an earlier poisoned path gives real causes too, the unknown error only for a missing package |
| `ExplorerMarks.NoWayBack` | gps/pkgtree/pkgtree.go:942-953 | on an acyclic graph no import leads back into the path |
| `ExplorerMarks.EndIsExact` | gps/pkgtree/pkgtree.go:728-1052 | on an acyclic graph the final sets are exact |
| `Explorer.Explorer.Poison` | gps/pkgtree/pkgtree.go:747-786 | all sets on the path go, and each package gets the error with the rest of the cause |
| `Explorer.Explorer.PoisonBlack` | gps/pkgtree/pkgtree.go:809-832 | keeps the marks and leaves nothing on the path |
| `Explorer.Explorer.Dfe` | gps/pkgtree/pkgtree.go:843-991 | a visit ends, keeps the marks, and what it returns says what became of the package and of the path |
| `Explorer.Explorer.Explore` | gps/pkgtree/pkgtree.go:993-1005 | every package is visited |
| `Explorer.WmToReach` | gps/pkgtree/pkgtree.go:728-1052 | every package is kept or has a real problem, every list is true; without back-propagation exactly the packages without an error are kept; on an acyclic graph exactly the right packages are kept, with exactly what the packages they reach import |
| `Explorer.SplitImports` | gps/pkgtree/pkgtree.go:585-598 | imports that are not ignored are split by the root of the tree |
| `Explorer.BuildWorkmap` | gps/pkgtree/pkgtree.go:548-601 | what becomes of every package of the tree, broken ones kept even if ignored |
| `Explorer.ReportIsPlaced` | gps/pkgtree/pkgtree.go:548-603 | no ignored package is kept or listed, and lists respect the root of the tree |
| `Explorer.KeptAreAsked` | gps/pkgtree/pkgtree.go:548-603 | a sound package is kept or has a problem exactly when it is not ignored and, if a main package, these are asked for |
| `Explorer.OwnImportsAreListed` | gps/pkgtree/pkgtree.go:548-603 | what is listed is what packages import, tests only when asked for, under internal or external by the root of the tree |
| `Explorer.ToReachMap` | gps/pkgtree/pkgtree.go:548-603 | all of it for a package tree, with the closure that the solver needs: of the sound packages exactly those not ignored are kept or reported, main packages only when asked for, and what a package imports itself is listed, tests only when asked for |
| `LineEndings.NormOfParts` | gps/pkgtree/digest.go:50-117 | replacing CRLF in two parts is replacing it in the whole, unless a pair lies across the seam |
| `LineEndings.UntornIsNorm` | gps/pkgtree/digest.go:50-117 | as long as no pair is torn, what is emitted and held back is the text with each CRLF replaced |
| `LineEndings.TornIsSeen` | gps/pkgtree/digest.go:108-115 | a torn pair leaves a CR where an LF should be |
| `LineEndings.EmittedIsNorm` | gps/pkgtree/digest.go:50-117 | the output is right if and only if no empty piece tears a pair and no CR is left behind |
| `LineEndings.WholePiecesAreNorm` | gps/pkgtree/digest.go:50-117 | pieces that are not empty, then the bare end, always come out right, whatever the pieces |
| `LineEndings.Index` | gps/pkgtree/digest.go:83-86 | finds the first pair |
| `LineEndings.ShiftIsNorm` | gps/pkgtree/digest.go:88-100 | one more shift extends the normalised front of the buffer |
| `LineEndings.RemovePairs` | gps/pkgtree/digest.go:76-101 | the overlapping shifts leave exactly the text with each CRLF replaced |
| `LineEndings.LineEndingReader.Read` | gps/pkgtree/digest.go:50-117 | what one read emits, what it holds back, and which error it passes on |
| `LineEndings.TornWhenCut` | gps/pkgtree/digest.go:50-117 | cutting a piece in two does not change which pairs are torn, so neither does the size of the buffer |
| `LineEndings.Copy` | gps/pkgtree/digest.go:247-248 | copying a whole stream is right if and only if the source delivers no empty piece inside a pair, and no error together with a last CR |
| `VerifyTree.EveryNodeIsClassified` | gps/pkgtree/digest.go:343-472 | every node visited is needed, or lies at or below exactly one node reported as not in the lock, never both |
| `VerifyTree.StraysHoldNoProject` | gps/pkgtree/digest.go:418-468 | nothing reported as not in the lock holds, or lies in, a project that was found |
| `VerifyTree.ProjectStatusIs` | gps/pkgtree/digest.go:403-416 | a project that is found has no mismatch exactly when the lock has its digest, is a mismatch exactly when the lock has another, and an empty digest exactly when the lock has none |
| `VerifyTree.NotInTreeIsNotReached` | gps/pkgtree/digest.go:386-426 | exactly when a name of the lock stays not in the tree, plain files included |
| `VerifyTree.NotInTreeForDirectories` | gps/pkgtree/digest.go:386-426 | with no plain file among the names of the lock: exactly when it was not found |
| `VerifyTree.MarkRequired` | gps/pkgtree/digest.go:418-421 | the walk up the parent indices marks the node and exactly those above it, and stays in bounds |
| `VerifyTree.AddChildren` | gps/pkgtree/digest.go:428-452 | a node for each child that is not skipped, directories queued |
| `VerifyTree.ReportStrays` | gps/pkgtree/digest.go:456-468 | the walk back over the nodes reports exactly those that are not required below one that is |
| `VerifyTree.VerifyDepTree` | gps/pkgtree/digest.go:328-472 | the walk ends, gives the exact status of everything, the verdict on each digest included, and fails if and only if something in the tree stops it |
| `IgnoredRules.WildcardOrder` | gps/pkgtree/ignored_ruleset.go:36-38 | what sorting says about a wildcard and what goes on after its stem |
| `IgnoredRules.PutKeepsTrie` | gps/pkgtree/ignored_ruleset.go:38-61 | inserting or skipping the next rule in order keeps what the trie says of the rules so far |
| `IgnoredRules.NewIgnoredRuleset` | gps/pkgtree/ignored_ruleset.go:27-68 | the trie of a list of rules, dropped ones included |
| `IgnoredRules.TrieAgrees` | gps/pkgtree/ignored_ruleset.go:71-78 | a path is ignored if and only if a rule matches it and no literal rule hides it |
| `IgnoredRules.PlainPathAgrees` | gps/pkgtree/ignored_ruleset.go:71-78 | without a character below the asterisk: if and only if a rule matches it |
| `IgnoredRules.LiteralHidesPath` | gps/pkgtree/ignored_ruleset.go:71-78 | with the rules `a!` and `a*` the path `a!b` is not ignored |
| `IgnoredRules.ToSlice` | gps/pkgtree/ignored_ruleset.go:92-111 | the rules of a trie, one for each key |
| `IgnoredRules.RebuiltIsSame` | gps/pkgtree/ignored_ruleset.go:92-111 | the trie built from the rules of a trie is that trie |
| `IgnoredRules.Rebuild` | gps/pkgtree/ignored_ruleset.go:27-111 | and so for the ruleset of any list |
| `LockDiff.MergeReplays` | gps/lockdiff.go:88-126 | the changes lead exactly from the old list to the new one, and pair only equal keys |
| `LockDiff.MergeIsDifference` | gps/lockdiff.go:88-126 | additions and removals are the two multiset differences of the keys |
| `LockDiff.DiffPackages` | gps/lockdiff.go:205-239 | the nested loops compute the merge of two sorted package lists |
| `LockDiff.DiffProjects` | gps/lockdiff.go:171-245 | computes the difference of two projects |
| `LockDiff.ProjectDiffSays` | gps/lockdiff.go:171-203 | each field is reported exactly when it differs, with what it was and what it is |
| `LockDiff.UpdateIsReported` | gps/lockdiff.go:171-203 | a new release at a new revision is reported with both, old and new |
| `LockDiff.ComponentsTellApart` | gps/version.go:858-875 | revision, branch and release tell versions apart, but for the default branch and how a name reads |
| `LockDiff.DiffIsNilWhenSame` | gps/lockdiff.go:171-245 | nothing is reported if and only if source, version, revision and the multisets of packages agree |
| `LockDiff.BranchChangeIsNotReported` | gps/lockdiff.go:241-243 | a move to another branch at the same revision is not reported |
| `LockDiff.PackageDiffsApply` | gps/lockdiff.go:205-239 | the package differences turn the old packages into the new ones if and only if no package with an empty name goes away |
| `LockDiff.ProjectsAreSorted` | gps/lock.go:54-66 | sorting by identifier sorts by root, and keeps the projects |
| `LockDiff.DiffProjectLists` | gps/lockdiff.go:88-126 | the nested loops compute the merge of two sorted project lists |
| `LockDiff.DiffLocks` | gps/lockdiff.go:66-135 | computes the difference of two locks, nil when there is none |
| `LockDiff.AddAndRemoveAreDifferences` | gps/lockdiff.go:66-135 | the roots added and removed are exactly the multiset differences |
| `LockDiff.EntriesAreShown` | gps/lockdiff.go:137-167 | what is added is shown as the new lock has it and what is removed as the old one has; the digests are reported when they differ, the old one first |
| `LockDiff.ModifiedAreDifferences` | gps/lockdiff.go:98-104 | with a root at most once in each lock, what is modified is exactly what differs between two projects of one root |
| `LockDiff.NilWhenSame` | gps/lockdiff.go:131-134 | and nothing is reported if and only if digests and roots agree and no two projects of one root differ |
| `SourceGateway.StepKeepsInv` | gps/source.go:70-246 | every step of every call keeps all that is known of the registry |
| `SourceGateway.RunKeepsInv` | gps/source.go:70-246 | so it holds in every state of every interleaving |
| `SourceGateway.NamesHaveGateways` | gps/source.go:79-87 | while no one writes, every name leads to a URL with a gateway; no call ever panics |
| `SourceGateway.GatewaysStay` | gps/source.go:234-245 | a gateway is never replaced |
| `SourceGateway.RunRecords` | gps/source.go:219-236 | names are only added, and a name for which a call has returned a gateway is known |
| `SourceGateway.LaterCallsAreAnswered` | gps/source.go:79-112 | so every call that looks for it after that is answered from the maps, at once or by the folded name |
| `SourceGateway.UpgradesAreAnswered` | gps/source.go:104-126 | a call that goes on from the folded name is answered with the gateway recorded for that, and records its own |
| `SourceGateway.LaterCallsGetIt` | gps/source.go:79-112 | with the gateway that was returned, as long as the URL of the name is not recorded anew |
| `SourceGateway.NamesChangeByRecording` | gps/source.go:219-236 | which only a call does that records that very string |
| `SourceGateway.OneWorker` | gps/source.go:139-157 | there is exactly one worker for a folded name as long as anyone is registered for it |
| `SourceGateway.WaitersAreServed` | gps/source.go:142-174 | at any time a caller that folded in is known to its worker exactly once, or has the result of a worker of its name; that it gets there is `EveryCallReturns` |
| `SourceGateway.ResultsStay` | gps/source.go:159-177 | a result that was sent is never sent again or changed |
| `SourceGateway.ReturnedGatewaysAreListed` | gps/source.go:79-246 | a gateway that a call returns is in the map, at exactly one URL |
| `SourceGateway.NoDeadlock` | gps/source.go:70-246 | as long as a call is not done, some call can take a step |
| `SourceGateway.StepsAreFew` | gps/source.go:70-246 | every step brings its call closer to the end and moves no other, so a call has at most as many steps as its stage says |
| `SourceGateway.EveryCallReturns` | gps/source.go:70-246 | with no new calls, every interleaving ends after at most eleven steps a call, only with every call returned, and each caller that folded in at any time has returned the result of a worker of its name |

## Left out

- Completeness and minimality of the search: `unselectLast` queues the enlarged package list and removal compares exact lists (gps/solver.go:1353, gps/solver.go:1376), so entries can outlast their edges (`CrashingRun`).  `Unsolvable` says that an entry was refused and no queue is left, not that there is no solution, nor is it claimed that every package of a solution is needed.
- Order of the worklist: the heap is a multiset from which any entry is picked, so what is proved holds for every order.
- Package lists are sets: they are sorted and without duplicates in the source.
- The index out of range in `findValidVersion` is the outcome `Panicked`.
- Whether a revision that the root project itself asks for exists: the code checks that for dependencies of dependencies only (gps/solver.go:622-655), so a solution promises it for imports.
- The order of the worklist is stated for the runs of `CrashingRun` and `TwoSources` alone (`Runs.Ahead`), not the heap that keeps it.
- Ranges that are unions of ranges, and metadata of versions: `Ranges` is about the intersection of two plain ranges.
- The semver library is a record of functions with laws in the solver.  `MeetLaw` is a hypothesis there, which the vendored library does not keep for all versions: `Ranges.MeetIsExact` says for which it does, `Ranges.SomeGoAstray` gives two for which it does not.
- Import cycles: an import that is still on the path is passed over (gps/pkgtree/pkgtree.go:942-948), so exactness of the lists and the closure that the solver needs are stated for acyclic graphs, self-imports allowed; everything else holds with cycles.
- Edges that are pushed while their project is selected are checked against the version list of the edge's identifier, earlier ones against that of the selected identifier; `SolverInvariants.EdgeOk` says so.
- Reach lists and problem texts: lists are sets, errors are tagged values.
- Cancellation, metrics, tracing, failure messages, prefetching and the breaking of the source lock have no part in the results claimed.
- Case folding and standard-library tests are parameters, as are deduction, manifests and locks, and how constraints of the root project are gathered (gps/rootdata.go).
- The order that `overrideAll` sorts into is not kept: the constraints go into a trie next.
- DigestFromDirectory, file modes and symbolic links: a directory's digest is a parameter, and the tree is finite.
- Strings are sequences of characters; names of a path are kept apart instead of joined by a separator.
- The order of projects with equal identifiers after Go's unstable sort is that of a stable sort here.
- A project with neither version nor revision, on which `VersionComponentStrings` fails, is not part of this model.
- Reading from a reader with a buffer of one byte while a CR is held back counts as an empty piece; `LineEndings.Copy` asks for two.
- Errors of the supervisor's context at the start of `getSourceGatewayFor` are the failing first step; its two locks are modelled as one that is explicit, for the maps, and one whose critical sections are single steps, for the waiting callers.
- New calls that never stop coming: `EveryCallReturns` is about runs to which none is added.
