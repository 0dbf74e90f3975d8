# forge-ci: scheduling and releasing, modelled

Dafny 4.11 models of two cores of forge-ci and proofs about them. `dafny verify dfyconfig.toml` checks
everything.

**The wave scheduler and the validation in front of it.** `Waves` groups the repos a target names into
waves, each after everything it needs; it orders checkouts at run time and looks for cycles at parse time.
`Waves.dfy` carries the loops of the source and proves each against one relation, `IsOutcome`, which says
what the answer is without saying how it is found: wave *k* holds, in declared order, the names whose longest
chain of in-target needs has *k* needs. Everything else about `Waves` (`WavesLaws.dfy`) is proved of that
relation, over the graph theory in `Needs.dfy`. `Validate.dfy` carries every check of `Pipeline.Validate`,
each against the problems it may report (`Pipeline.dfy`); `PipelineLaws.dfy` proves, check by check in
`PipelineChecks.dfy`, that no problem is reported exactly when the pipeline is well-formed by a definition that
mentions no check at all (`PipelineForm.dfy`), and
`PipelineOrder.dfy` what a well-formed pipeline can rely on: no cycle at run time, and one order of all
substages that respects `needs` and `uses` together.

**The release protocol.** `publish` commits to several remotes and a release store with no transaction between
them. `Protocol.dfy` makes it a state machine: a world of remote tags, checkout tags and releases, and any
number of publish runs that step in any interleaving. Between any two steps a run may die; any write may land
and still be reported as failed. The world refuses what git refuses without force, a tag over an existing
tag. A release has one asset to a name; whether its store refuses a second one or lets it replace the first
is a constant of the world, and every result covers both. `ProtocolSafety.dfy` proves what holds after every
history. `ProtocolClean.dfy` gives a run that nothing disturbs as functions on worlds; `ProtocolRuns.dfy`
proves what it achieves, what it leaves when it fails, and that interrupted runs converge. `ProtocolOverlap.dfy`
says when a tag gets a second release, over histories built in `ProtocolGoesOn.dfy`. `Publish.dfy` carries
`publish` and `Tag` call by call in a class whose field is the world and whose ghost fields record the
history: every call is one step of the protocol, so the laws of histories apply to each execution.
`Assets.dfy` is the staging of what a release attaches.

**Text.** `Tags.dfy`: prefixes, versions and why no two share a tag name. `RefReader.dfy`: reading the commit
of a tag off `git ls-remote`. `TreeHash.dfy`: the text a tree fingerprint is taken of. `Text.dfy`: the string
functions they use, written out; `TextLaws.dfy` says of each what it comes to without it, `Selection.dfy` what it
is to pick entries of a list in order.

What was found on the way, each proved:

- `Waves` uses the fewest possible waves exactly when an edge applies or at most one entry is listed
  (`WavesLaws.FewestWavesExactly`). With no edge each entry is its own wave, as the code's comment says.
- Preflight is meant to let a release that cannot complete fail before it has touched a remote. It looks at
  remotes only, so it does not see a tag at another commit that exists in a checkout alone: then the draft is
  in place and the remotes of all members before that one are tagged
  (`ProtocolRuns.AFailingRunCanTagARemote`). `ProtocolRuns.FailingRunKeepsRemotesExactly` says exactly when a
  failing run leaves every remote as it was.
- Asset globs are told apart by path, releases by name. A pattern that matches one file name in two
  directories, or a file called `index.json`, is refused nowhere before the first write; it breaks the run or
  loses a file, by the store (`ProtocolRuns.ClashingNamesLoseAFile`). The staged names are distinct exactly
  under `Assets.NamesApart`, and a clean run succeeds exactly with neither kind of conflict
  (`ProtocolRuns.CleanRunSucceedsExactly`).
- A tag has at most one visible release in every history in which no two runs are ever both about to make it
  (`ProtocolOverlap.AtMostOneVisibleRelease`); runs of other releases may overlap as they like. Once
  two runs are and neither has begun to tag, both can make one visible
  (`ProtocolOverlap.OverlappingRunsCanBothRelease`), and that can come about from every world for every plan
  that could be released once (`ProtocolOverlap.EveryPlanCanBeReleasedTwice`).
- Lines of a tree listing are trimmed before they are hashed, so a space at the end of a path is not seen:
  `TreeHash.SameTextExactlyForSameFiles` holds where no path ends in one, and
  `TreeHash.TrailingSpaceIsNotSeen` for each that does.
- The comment on the writes says that after a crash that left tags, the next run finishes their release. It
  does, with a draft of its own: the draft that was left stays a draft for good
  (`ProtocolSafety.OrphanDraftsStayDrafts`).

## Model

| member | source | states |
|---|---|---|
| Waves.Waves | pkg/citypes/waves.go:29-77 | the answer is the one `IsOutcome` allows: layers by longest chain in declared order with repeats kept, singletons when no edge applies, or the ascending list of the names no order can place; the loop ends |
| Waves.HasAnyEdge | pkg/citypes/waves.go:81-96 | true exactly when some named repo needs another named repo; needs on itself or outside the list do not count |
| Waves.NextWave | pkg/citypes/waves.go:48-60 | one pass over the input yields, in declared order and with repeats, exactly the next layer of the graph (`WavesLaws.WaveKeepsDeclaredOrder` says what declared order is) |
| Waves.LeftAfter | pkg/citypes/waves.go:69-71 | the pending set loses the wave and nothing else, and gets strictly smaller |
| Waves.Sorted | pkg/citypes/waves.go:111-120 | the set, each name once, in ascending byte order |
| TextLaws.BeforeExactly | pkg/citypes/waves.go:111-120 | one name sorts before another exactly when it is a proper prefix or has the smaller character where they first differ |
| Waves.NeedsOf | pkg/citypes/waves.go:126-136 | the graph the checkouts declare, where the last non-empty list under a name counts |
| Waves.WavesFor | pkg/citypes/waves.go:140-151 | a target that names no repo is one wave at the root; any other is ordered over the checkouts' graph |
| Waves.ReadyIsLayer | pkg/citypes/waves.go:101-109 | the names `ready` lets go are exactly those whose longest chain ends here |
| NeedsGraph.DeepIsChain | pkg/citypes/waves.go:48-76 | the recursive definition of depth agrees with walking along chains of needs |
| NeedsGraph.NeedsFromIsLast | pkg/citypes/waves.go:126-136 | what a name needs is the last non-empty list declared under it, and nothing when there is none |
| NeedsGraph.Pigeonhole | pkg/citypes/waves.go:62-67 | a walk longer than the set of names repeats one: the reason a stuck set holds a cycle |
| NeedsGraph.CoreIsWhatLeadsToCycle | pkg/citypes/waves.go:62-67 | the names no order can place are exactly those from which a cycle can be reached |
| NeedsGraph.CoreIsEmptyIffAcyclic | pkg/citypes/waves.go:62-67 | there are none exactly when the graph has no cycle |
| NeedsGraph.SubgraphKeepsAcyclic | pkg/citypes/waves.go:20-23 | fewer names and edges make no new cycle |
| WavesLaws.FailsExactlyOnACycle | pkg/citypes/waves.go:43-77 | an answer is a failure if and only if the needs among the named repos, self-needs apart, contain a cycle |
| WavesLaws.ReportsWhatLeadsToACycle | pkg/citypes/waves.go:62-67 | the reported names are exactly those a cycle can be reached from, ascending |
| WavesLaws.ReportsTheGreatestStuckSet | pkg/citypes/waves.go:62-67 | the reported set is the greatest set of named repos each of which needs another member of it |
| WavesLaws.OneAnswer | pkg/citypes/waves.go:53-55 | the relation leaves no choice: one configuration, one answer |
| WavesLaws.WaveIsLongestChain | pkg/citypes/waves.go:48-76 | a name is in wave k exactly when a chain of k in-target needs starts at it and none of k + 1 does |
| WavesLaws.WaveKeepsDeclaredOrder | pkg/citypes/waves.go:25-27 | entry i of a wave stands at position at[i] of the input, positions rise strictly, and with an edge they are all the positions at which names of the wave are declared |
| WavesLaws.NeedsComeEarlier | pkg/citypes/waves.go:11-13 | every named need of a name is in a strictly earlier wave |
| WavesLaws.WaveMembersAreIndependent | pkg/citypes/waves.go:11-13 | no member of a wave needs another member of it |
| WavesLaws.EveryNameIsPlaced | pkg/citypes/waves.go:57-60 | every named repo is in some wave |
| WavesLaws.NothingLostNothingAdded | pkg/citypes/waves.go:34-76 | the waves together are the same multiset as the input, and with no edge the same list |
| WavesLaws.NoNameMovesEarlier | pkg/citypes/waves.go:48-76 | with an edge, no assignment of slots that respects the needs gives a name an earlier slot |
| WavesLaws.FewestWavesExactly | pkg/citypes/waves.go:34-76 | the number of waves is the least possible exactly when an edge applies or at most one entry is listed |
| WavesLaws.OnlyEdgesMatter | pkg/citypes/waves.go:20-23 | two graphs with the same edges among the named repos have the same answer |
| WavesLaws.OnlyInTargetEdgesMatter | pkg/citypes/waves.go:81-109 | dropping needs outside the list and on oneself changes no answer |
| WavesLaws.ListOrderDoesNotMatter | pkg/citypes/waves.go:101-109 | reordering or repeating a needs list changes no answer |
| WavesLaws.ReorderingStaysInsideWaves | pkg/citypes/waves.go:25-27 | with an edge, reordering the names reorders each wave and changes nothing else; a cycle report stays the same |
| WavesLaws.OrderedIsInherited | pkg/citypes/waves.go:20-23 | what can be ordered can be ordered with names left out |
| Validate.Validate | pkg/config/config.go:184-488 | the list reported holds exactly the real problems, all of them and nothing else |
| Validate.NeedProblems | pkg/config/config.go:216-234 | needs on oneself or on an undeclared repo; and the graph that is then checked for cycles |
| Validate.CycleProblem | pkg/config/config.go:236-238 | a cycle is reported exactly when there is one, with all the names it can be reached from |
| Validate.EngineProblems | pkg/config/config.go:261-312 | shape, port, uri, manager and repeated alias of engines and what they ignore; and the port map, where the last engine under an alias wins |
| Validate.IgnoreRepos | pkg/config/config.go:558-573 | the text entries of the untyped list, in order |
| Validate.StageBefore | pkg/config/config.go:575-587 | the first stage of that name, when it stands before the given position, else none |
| Validate.UseProblems | pkg/config/config.go:444-458 | a use that is malformed, names no earlier stage, or no substage of the stage it names |
| Validate.NeedsOfStage | pkg/config/config.go:151-160 | the graph the substages declare |
| PipelineLaws.AcceptsExactlyTheWellFormed | pkg/config/config.go:483-487 | nothing is reported if and only if names are unique, every reference resolves to the right port or an earlier stage, and both kinds of graph are acyclic |
| PipelineForm.PortMapIsHasPort | pkg/config/config.go:294-295 | with unique aliases the port map says what is declared |
| PipelineForm.CyclesAreReported | pkg/config/config.go:236-238 | every graph with a cycle has a report |
| TextLaws.KebabExactly | pkg/config/config.go:512 | lowercase kebab-case, by its characters written out |
| PipelineForm.UriExactly | pkg/config/config.go:251-255 | an engine uri is one of the two schemes and something behind it |
| PipelineForm.CapExactly | pkg/config/config.go:510 | a cap is v and the decimal text of a number, or of two with a dot between |
| PipelineForm.PortMapIsLastDeclared | pkg/config/config.go:290-295 | an alias stands for the last engine declared under it |
| PipelineForm.TextsExactly | pkg/config/config.go:558-573 | the ignored names are the text entries of the list, all of them, in their order |
| PipelineForm.UsesAreCutExactly | pkg/config/config.go:445-449 | an entry of uses has two parts exactly when it has a slash, and they are what is joined by the first one |
| PipelineOrder.NoTargetMeetsACycle | pkg/config/config.go:216-238 | in an accepted pipeline no target meets a cycle at run time, whatever repos it lists, in any order and number |
| PipelineOrder.RunReadsTheCheckedGraph | pkg/citypes/waves.go:122-136 | with every repo checked out once, the graph a run reads is the one Validate checked |
| PipelineOrder.NamedExactly | pkg/config/config.go:444-458 | the text that names a substage is its stage, a slash and it, and no other |
| PipelineOrder.UseOkExactly | pkg/config/config.go:444-458 | an entry of uses is sound exactly when it is an earlier stage, a slash and one of its substages |
| PipelineOrder.UseResolves | pkg/config/config.go:441-459 | in an accepted pipeline every use stands for exactly one substage, of a strictly earlier stage |
| PipelineOrder.DependencyIsEarlierOrSibling | pkg/config/config.go:432-459 | what a substage depends on is in an earlier stage or is an edge of its own stage's graph |
| PipelineOrder.EveryStageIsOrdered | pkg/config/config.go:461-463 | in an accepted pipeline every stage has waves |
| PipelineOrder.EverySubstageRuns | pkg/citypes/waves.go:57-60 | every substage is in some wave of its stage |
| PipelineOrder.DependenciesComeFirst | pkg/config/config.go:395-463 | by stage and wave, all a substage needs or uses comes strictly before it |
| PipelineOrder.AnyRefinementPutsDependenciesFirst | pkg/config/config.go:395-463 | so does every listing that goes by stage, then wave |
| PipelineOrder.NeedsAndUsesAreAcyclic | pkg/config/config.go:395-463 | needs and uses together form no closed walk over all substages |
| Tags.RecognisesTheShape | pkg/citypes/citypes.go:47 | the left-to-right recogniser accepts exactly the texts of the version's shape |
| TextLaws.NumberExactly | pkg/citypes/citypes.go:47 | a number without leading zeros is the decimal text of a natural number |
| Tags.VersionsExactly | pkg/citypes/citypes.go:47 | the versions are exactly v, the decimal texts of three natural numbers with dots between, and nothing more or a dash and prerelease characters |
| Tags.DecodesWhatWasNamed | internal/controller/artifactcontroller/version.go:54-60 | prefix and version can be read back off every tag name |
| Tags.TagNamesAreDisjoint | internal/controller/artifactcontroller/version.go:54-60 | no two pairs of an accepted prefix and a version share a tag name |
| Tags.TagNameIsPlain | pkg/config/config.go:512-519 | a tag name has no space and no caret, so it reads as one word and never as a peeled ref |
| Tags.VersionOn | internal/adapter/gitadapter/gitadapter.go:215-228 | a listed line is taken exactly when it is a version under this prefix |
| Tags.LatestTag | internal/adapter/gitadapter/gitadapter.go:203-232 | the version on the first line that holds one under the prefix, empty exactly when none does |
| Tags.LatestTagStaysInItsNamespace | internal/adapter/gitadapter/gitadapter.go:215-228 | a version tagged under another prefix is never taken for this one's |
| RefReader.RemoteTagAt | internal/adapter/gitadapter/gitadapter.go:396-419 | the last peeled line if any, else the last plain one, else absent; lines of fewer than two words are passed over |
| RefReader.ReadsWhatTheRemoteHolds | internal/adapter/gitadapter/gitadapter.go:389-420 | for a lightweight, annotated or absent tag, in any order of lines with others mixed in, reading gives the commit it resolves to or absent |
| TreeHash.Ignored | internal/adapter/gitadapter/gitadapter.go:261-302 | true exactly when one of the trimmed patterns ignores the path |
| TreeHash.IgnoresAsItMatches | internal/adapter/gitadapter/gitadapter.go:262-266 | a blank pattern ignores nothing, and any other is matched as it is |
| TreeHash.IgnoresAnywhere | internal/adapter/gitadapter/gitadapter.go:284-294 | a pattern with two stars in front is matched after a slash or against the last element of the path |
| TreeHash.IgnoresFromTheRoot | internal/adapter/gitadapter/gitadapter.go:268-274 | a pattern with a slash in front is matched against the whole path |
| TreeHash.IgnoresEverythingUnder | internal/adapter/gitadapter/gitadapter.go:276-282 | dir/** ignores the directory and every path under it, and nothing else |
| TreeHash.Preimage | internal/adapter/gitadapter/gitadapter.go:240-256 | the hashed text is the kept lines, joined |
| TreeHash.KeptSelects | internal/adapter/gitadapter/gitadapter.go:240-254 | what is kept are the trimmed lines that count, all of them, in the order of the listing |
| TreeHash.SameTextExactlyForSameKeptLines | internal/adapter/gitadapter/gitadapter.go:240-256 | two listings hash the same text if and only if they keep the same trimmed lines in the same order |
| TreeHash.SameTextExactlyForWhatIsSeen | internal/adapter/gitadapter/gitadapter.go:240-256 | over untrimmed listings without exception: two trees hash the same text if and only if they agree once spaces at the end of paths, blank paths and ignored files are dropped |
| TreeHash.SameTextExactlyForSameFiles | internal/adapter/gitadapter/gitadapter.go:240-256 | over untrimmed listings: where no path ends in a space, two trees hash the same text if and only if they have the same unignored files |
| TreeHash.TrailingSpaceIsNotSeen | internal/adapter/gitadapter/gitadapter.go:243-254 | a path with a space added at its end hashes like the path without it, in every tree |
| TreeHash.AFileCountsExactlyWhenNotIgnored | internal/adapter/gitadapter/gitadapter.go:242-254 | one file more changes the text if and only if no pattern ignores it |
| Text.BlankIsTrimmedEmpty | pkg/config/config.go:191-193 | trimming leaves nothing exactly when all of it is space |
| TextLaws.TrimSpaceExactly | internal/adapter/gitadapter/gitadapter.go:243 | trimming leaves the one text that neither begins nor ends with a space, with only spaces cut off around it |
| Text.LinesOfJoin | internal/adapter/gitadapter/gitadapter.go:240-256 | joining lines and splitting the text gives the lines back |
| TextLaws.SpacesExactly | internal/adapter/gitadapter/gitadapter.go:243 | the characters trimming takes for spaces, written out |
| TextLaws.FieldsTake | internal/adapter/gitadapter/gitadapter.go:398-401 | the words of a text, read from the front: a word up to the next space is the first |
| TextLaws.JoinOfLines | internal/adapter/gitadapter/gitadapter.go:242 | splitting a text at its line ends and joining it gives the text back |
| Assets.SortByAsset | cmd/ci-artifact-release/handlers.go:339 | a permutation in order of asset name |
| TextLaws.BaseExactly | cmd/ci-artifact-release/handlers.go:333-335 | the last path element is the text without a slash that stands at the end after a slash or alone |
| Assets.ExpandAssets | cmd/ci-artifact-release/handlers.go:296-342 | the planned uploads plus each newly matched path exactly once, in order, each of these under its last path element and naming no platform; it succeeds exactly when every non-empty pattern is well formed and matches something |
| Assets.StageAssets | cmd/ci-artifact-release/handlers.go:365-419 | assets and uploads line up one to one, the index is rendered from the measured digests in the same order and comes last; it fails exactly on an unreadable file or an index that cannot be written |
| Assets.IndexIsOfWhatIsStaged | cmd/ci-artifact-release/handlers.go:372-402 | entry i of what the index is rendered from is upload i with the digest and size of the file staged for it |
| Assets.StagingIsComplete | cmd/ci-artifact-release/handlers.go:217-230 | every planned and every matched file is staged from where it is found under its own name, with the index last, and every planned file could be read |
| Assets.StagedNamesAreDistinctExactly | cmd/ci-artifact-release/handlers.go:296-342 | staged names are distinct if and only if planned names are, base names of added paths are and are not planned, and none is the index's |
| Assets.NamedHoldsExactly | internal/controller/artifactcontroller/artifactcontroller.go:131-141 | attached in order with one asset to a name, all are to be had under their names exactly when no two different files share one |
| Assets.EveryFileIsFound | cmd/ci-artifact-release/handlers.go:217-230 | with names apart, each planned and each matched file is what is found under its name, and so is the index |
| Assets.TwoAppsClash | cmd/ci-artifact-release/handlers.go:330-336 | the input on which it fails: one pattern, two directories, one file name, staged twice |
| Assets.Stage | cmd/ci-artifact-release/handlers.go:217-230 | it fails only when a pattern goes unanswered or what is called for cannot be read or indexed; else it is a staging of exactly what the uploads and patterns call for |
| ProtocolSafety.StepGrows | internal/adapter/gitadapter/gitadapter.go:338-387 | no step of any run moves or removes a tag, hides a release or takes a name off one |
| ProtocolSafety.TagsNeverMove | internal/adapter/gitadapter/gitadapter.go:338-387 | over any history, interleaved or not, an existing tag, remote or local, keeps its commit |
| ProtocolSafety.UntaggedNeverGrows | cmd/ci-artifact-release/handlers.go:157-198 | members still to be tagged never become more |
| ProtocolSafety.MoveKeepsInv | cmd/ci-artifact-release/handlers.go:232-289 | every step keeps what each run relies on and what each release promises, for the run that moves and all others |
| ProtocolSafety.VisibleReleasesAreWhole | cmd/ci-artifact-release/handlers.go:232-289 | whenever a release some run made is visible, every member of that run's plan carries the tag at its commit, and the release is made of exactly what the run set out to attach, the index included; it holds every asset if and only if no two clash, and always where the store refuses a second asset under a name |
| ProtocolSafety.VisibleReleasesNeverChange | cmd/ci-artifact-release/handlers.go:232-237 | from the moment it is visible a release stays as it is, in every history |
| ProtocolSafety.ReleasesAreForWhatWasStaged | cmd/ci-artifact-release/handlers.go:222-258 | what a run sets out to attach is what it staged |
| ProtocolSafety.SuccessMeansReleased | cmd/ci-artifact-release/handlers.go:206-215 | a run that reports published or converged leaves its members tagged and a release visible |
| ProtocolSafety.SuccessShowsItsRelease | cmd/ci-artifact-release/handlers.go:277-289 | the release a successful run made is visible and made of exactly what it set out to attach |
| ProtocolSafety.OneDraftPerRun | cmd/ci-artifact-release/handlers.go:240-249 | one run adds at most one release |
| ProtocolSafety.PreflightCreatesNothing | cmd/ci-artifact-release/handlers.go:146-230 | a run in preflight, refused by it or converged has made no release |
| ProtocolSafety.RefusedRunsWroteNothing | cmd/ci-artifact-release/handlers.go:146-230 | whatever else goes on, no step of a run that ends refused or converged changed a remote, a checkout or a release |
| ProtocolSafety.OrphanDraftsStayDrafts | cmd/ci-artifact-release/handlers.go:232-240 | a draft nobody works on stays as it is in all that follows |
| ProtocolClean.TagTwiceIsTagOnce | internal/adapter/gitadapter/gitadapter.go:338-387 | repeating a successful Tag writes nothing and succeeds |
| ProtocolClean.TagAllWhenClear | cmd/ci-artifact-release/handlers.go:264-275 | tagging members in order succeeds exactly when each is clear of conflicts, members that share a checkout or remote included |
| ProtocolClean.SettledAreSkipped | cmd/ci-artifact-release/handlers.go:157-198 | leaving out members that were on their remote changes nothing, then or in any later world |
| ProtocolRuns.RemoteConflictIsRefused | cmd/ci-artifact-release/handlers.go:180-194 | a clean run is refused exactly when some remote has the tag at another commit, and then nothing changed |
| ProtocolRuns.LocalConflictLeavesADraft | cmd/ci-artifact-release/handlers.go:240-275 | a clean run breaks exactly on what preflight cannot see, a conflict in a checkout or a clash of names with no release found; then releases are untouched if one was found, and its draft is left if not, whole unless names clashed |
| ProtocolRuns.BrokenRunTagsThoseBefore | cmd/ci-artifact-release/handlers.go:264-275 | a run that breaks on a member has tagged exactly the members before it, and all of them |
| ProtocolRuns.FailingRunKeepsRemotesExactly | cmd/ci-artifact-release/handlers.go:157-161 | a failing clean run leaves every remote as it was if and only if preflight could see the conflict, or an asset was refused, or nothing was to be pushed for the members before the first one that is not clear |
| ProtocolRuns.AFailingRunCanTagARemote | cmd/ci-artifact-release/handlers.go:264-275 | a world of two members in which a clean run fails with the first member's remote tagged |
| ProtocolRuns.CleanRunSucceedsExactly | cmd/ci-artifact-release/handlers.go:157-289 | a clean run succeeds if and only if no conflicting tag is in its way and it finds a release or the store takes every asset |
| ProtocolRuns.CleanRunReleases | cmd/ci-artifact-release/handlers.go:232-289 | and then all members are tagged and a release is visible: the one found, or a new one made of exactly its assets, which holds each under its name if and only if no two clash |
| ProtocolRuns.ClashingNamesLoseAFile | cmd/ci-artifact-release/handlers.go:330-336 | with two matched files of one name: a store that refuses breaks the run, one that replaces makes visible a release that lacks a staged file |
| ProtocolRuns.NoConflictAlways | cmd/ci-artifact-release/handlers.go:260-275 | runs that want no other commit in any place of a plan's, interrupted anywhere and in whatever clones, put no conflict in its way |
| ProtocolRuns.InterruptedRunsConverge | cmd/ci-artifact-release/handlers.go:157-289 | after any number of such interrupted runs that began without conflict, one clean run tags every member and leaves a visible release if and only if it finds one or the store takes every asset |
| ProtocolRuns.RunsOfOnePlanAgree | cmd/ci-artifact-release/handlers.go:157-198 | runs with one list of members always satisfy what convergence asks of runs |
| ProtocolRuns.FreshClonesConverge | cmd/ci-artifact-release/handlers.go:163-166 | runs crash in their clones, the repos are cloned afresh, runs there may crash too: a clean run in the new clones finishes the release |
| ProtocolRuns.FurtherRunsWriteNothing | cmd/ci-artifact-release/handlers.go:206-215 | once all members are tagged and the release is visible, no step of a later run of the plan changes anything |
| ProtocolOverlap.AtMostOneVisibleRelease | cmd/ci-artifact-release/handlers.go:202-289 | a tag has at most one visible release in every history, however interleaved and crashed, in which no two runs are ever both about to make that release |
| ProtocolOverlap.SequentialRunsNeverOverlap | cmd/ci-artifact-release/handlers.go:202-289 | runs one after another, crashed or not, never overlap |
| ProtocolOverlap.OverlappingRunsCanBothRelease | cmd/ci-artifact-release/handlers.go:202-289 | the other half: from any state of any history in which two runs of one release that agree on commits have found none and begun no tag, and nothing is in their way, some continuation shows two, whatever the members and assets |
| ProtocolOverlap.EveryPlanCanBeReleasedTwice | cmd/ci-artifact-release/handlers.go:202-289 | from every world, for every plan without conflict or release, some history of two runs of it ends with two visible releases |
| Publish.Publisher.CreateDraftRelease | internal/adapter/githubadapter/releases.go:50-60 | a new release under the tag, a draft with nothing attached; a failure is one of the call |
| Publish.Publisher.UploadAsset | internal/adapter/githubadapter/releases.go:83-108 | the asset is attached to that release and nothing else changes; undisturbed it fails exactly when the store refuses a second asset under the name |
| Publish.Publisher.AttachEach | cmd/ci-artifact-release/handlers.go:251-257 | the assets in order up to the first that fails; undisturbed it is exactly `AttachAll` |
| Publish.Publisher.AttachNext | cmd/ci-artifact-release/handlers.go:251-257 | one upload with other runs about: success attaches the asset, undisturbed it fails exactly when the name is taken |
| Publish.Publisher.PublishRelease | internal/adapter/githubadapter/releases.go:65-75 | that draft becomes visible and nothing else changes |
| Publish.Publisher.CreateTag | internal/adapter/gitadapter/gitadapter.go:370-376 | a tag that does not exist is created at the commit, one that exists is refused |
| Publish.Publisher.PushTag | internal/adapter/gitadapter/gitadapter.go:378-386 | a remote without the tag gets it, one with it at another commit refuses |
| Publish.Publisher.AskOrigin | internal/adapter/gitadapter/gitadapter.go:339-357 | a remote that has the tag settles the matter and leaves the checkout alone |
| Publish.Publisher.TagLocally | internal/adapter/gitadapter/gitadapter.go:359-376 | success means the checkout has the tag at the commit; undisturbed it fails exactly on another commit |
| Publish.Publisher.Tag | internal/adapter/gitadapter/gitadapter.go:338-387 | no tag moves; success means the member carries the tag at its commit, whoever interferes; undisturbed it is exactly the function `CleanTag` |
| Publish.Publisher.Preflight | cmd/ci-artifact-release/handlers.go:155-200 | writes nothing; undisturbed it yields exactly the members not yet on their remote, or is refused for a conflict |
| Publish.Publisher.LookUp | cmd/ci-artifact-release/handlers.go:202-215 | an answered lookup lets the run go on, release or no release; it stops as converged exactly when it has members, none is pending and a visible release is found |
| Publish.Publisher.Decide | cmd/ci-artifact-release/handlers.go:146-230 | all before the first write: unmatched patterns, unreadable files, conflicts and failed calls end it with nothing written, and undisturbed nothing else does |
| Publish.Publisher.Draft | cmd/ci-artifact-release/handlers.go:240-258 | success means a full draft of this run; undisturbed the world gains exactly that, or what was attached before a refusal |
| Publish.Publisher.TagPending | cmd/ci-artifact-release/handlers.go:264-275 | the members reported tagged are a prefix of the pending, each carries the tag, and undisturbed the next one is the one refused; undisturbed it is exactly `TagAll` |
| Publish.Publisher.CreateMissing | internal/adapter/gitadapter/gitadapter.go:370-376 | a tag the checkout lacked is created at the commit unless another run put one there first, and then it fails |
| Publish.Publisher.PushMissing | internal/adapter/gitadapter/gitadapter.go:378-386 | success means the remote has the tag at the commit, even if another run put it there first |
| Publish.Publisher.Show | cmd/ci-artifact-release/handlers.go:277-284 | success makes that release visible; undisturbed nothing else changes |
| Publish.Publisher.CarryOut | cmd/ci-artifact-release/handlers.go:232-289 | the writes in their order; undisturbed the end state is given exactly; when it breaks, it reports exactly the members before the one it broke on |
| Publish.Publisher.Publish | cmd/ci-artifact-release/handlers.go:125-290 | each execution is a run of the protocol; success means members tagged, a release visible, its own made of exactly what was staged, and no call failed; the index answered is the staged one; what it reports tagged is: all that was pending on success, and exactly the members before the one it broke on otherwise; refusal leaves the world as it was; undisturbed it refuses only for a conflict on a remote or a staging that fails, converges only when all is done, and otherwise is exactly `CleanRun` |
| Publish.DeliversEveryFile | cmd/ci-artifact-release/handlers.go:222-289 | what a successful run released has every planned and every matched file under its name when names are apart, which a refusing store makes sure of |

## Left out

- Validate.Validate: states which problems are reported and where, not in which order or how often, because messages are read by people and nothing depends on either.
- Error message text, the release's URL and the reason `publish` answers with: only which problem, where, and the names a cycle report lists.
- A checkout replaced in place: each clone is a checkout of its own, so a fresh clone is a new one.
- The plan: version arithmetic, which members changed and which binaries a release holds are decided elsewhere; the tag, the members with their commits and the uploads are inputs.
- Publish.Publisher.Interfere: what other runs do is its contract, and the code below relies on nothing more; its body does the least the contract allows.
- Publish.Publisher.UploadAsset: an empty asset name falls back to the file's name in the source; here assets are attached under the name they were staged with.
- ProtocolOverlap.OverlappingRunsCanBothRelease: starts from runs that have begun no tag; and the modelled store takes a second visible release under a tag, what the real service answers there is not part of this model.
- Assets.StageAssets: globbing, relative and absolute paths, digests, rendering and writing the index are given functions, and one answer stands for each file throughout a run.
- TreeHash.Preimage: SHA-256 is not part of this model, nor is what `path.Match` matches.
- Tags.LatestTag: git's ordering of the tags it lists, and the glob it lists them by.
- RefReader.ReadsWhatTheRemoteHolds: git's choice of which refs a pattern on `ls-remote` names; the lines given are those of the one tag asked for.
- HasRemote and TagAt: two calls that ask git once or twice; each is one question to the world here, which may fail.
- Fields no check reads (display names, branches, params, arguments) and parsing the YAML.
- Running processes, HTTP, JSON, the filesystem and the clock.
- The other engines (Talos, Kubernetes, Helm, Terraform, containers), gates, promotion, triggers and state: thin layers over other programs, or settled by reading one branch.
- Generated files and the field-by-field mappings of the command handlers.
