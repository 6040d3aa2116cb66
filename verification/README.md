# A verified model of the NeXgen engine's state machines and text surgeons

Dafny 4.11 models of the parts of the engine where a wrong branch costs data, money or trust, and proofs of
what those parts are for. `dafny verify dfyconfig.toml` checks everything. Loops and objects of the program
are methods and classes; each is proved against a specification function or an outright property, and the
guarantees below are lemmas about those functions or `ensures` clauses of those methods.

| files | what they model |
|---|---|
| `Options`, `RelayTypes`, `RelayLoop`, `RelayGraph`, `RelayRefinement`, `RelayHistory` | the council relay: the stage loop with fallback seats and pool quarantine, the resumable graph that saves a checkpoint after every node, the proof that both do the same thing, and all histories of crashes and resumes |
| `LineText`, `JsoncText`, `JsoncScan`, `JsoncLaws`, `JsoncGrammar`, `JsoncRoundTrip`, `JsoncSurgeon`, `JsoncWalk`, `JsoncLens`, `JsoncRemove`, `JsoncKeep`, `JsoncJoin`, `JsoncTwins` | the JSONC surgeon: hand-written scanners as index loops and how they agree, documents as trees with their trivia, a printer, a strict parser, the edits that set or remove one top-level property, and what a removal leaves alone |
| `GitCommits`, `GitRepo`, `GitPublish`, `GitGuard`, `Lanes` | publication over a commit DAG: what git commands may do, the branching of publish, quarantine, mirror update and guard convergence, and the release-lane check |
| `Template` | the inline template expander against an evaluator of template trees |
| `CancelRegistry`, `BridgeChannel` | the cancellation epoch of running seats, and the request ids of the stdio bridge, each under every interleaving |
| `Framing` | line queue and byte budget of a seat's pipes, the event-stream reply reader |
| `SeatResolver` | the choice of a seat for a role |
| `DiffReader` | the reader of added lines in a unified diff |

Conventions. A specification function on a text takes the text that is left and returns the text that is
left; the loops use offsets, and their contracts translate. A printer takes the text that follows as an
argument. Outcomes that the program cannot choose (provider answers, clock readings, whether a git command
succeeds, what another clone pushed meanwhile, which thread runs next) are arbitrary: functions passed in,
nondeterministic choices, or event lists, and every result holds for all of them.

What the proofs found out about the code:

- Removing a JSONC property takes a comma that ends a line comment for the separator, when the comment stands
  directly in front of a removed pair that has no comma behind it. `JsoncRemove.RemoveIsExact` says that the
  removal writes exactly the document without the key if and only if this does not happen, and
  `JsoncRemove.CommentCommaIsTaken` gives such a text. The rest of the pair's line then joins that comment. Where
  the line ends outside block comments the result still is the old object without the key
  (`JsoncJoin.RemoveMeans`). Where it does not, the removal can fail for want of its closing brace
  (`JsoncJoin.BraceIsTaken`), or succeed with a commented-out member brought to life
  (`JsoncKeep.CommentComesAlive`).
- The docstring of the removal promises that everything but the pair and one comma stays. A comment between a
  removed value and its comma goes too (`JsoncKeep.CommentIsRemoved`). `JsoncKeep.RemoveKeepsAll` and
  `JsoncKeep.RemoveKeepsComments` say exactly when the promise is kept, for the whole text and for the comments.
- Setting a JSONC property fails for a value with a line separator other than a newline in a string, such as
  U+2028, when the value is written on several lines or the key is new: reindenting breaks the string
  (`JsoncLens.SeparatorIsRefused`). It also fails for NaN, which differs from itself in the self-check
  (`JsoncLens.NanIsRefused`). `JsoncLens.SetIsALens` is an if-and-only-if.
- The comment stripper ends a line comment at a lone carriage return, the trivia skipper does not
  (`JsoncLaws.LoneCarriageReturnParts`). Behind a scalar with a comment the scanners are at different offsets on
  the raw and the stripped text (`JsoncTwins.ScalarsPart`), and a quote inside a scalar leads the stripper astray
  (`JsoncTwins.QuotesPart`); wherever the walk succeeds and no scalar holds a quote it finds the same members at
  the same offsets (`JsoncTwins.WalksAgree`).
- A published success means that the remote holds the local branch, with one exception that the contract of
  `GitPublish.Publish` states: HEAD stood elsewhere and the remote was ahead. A failure means that the call
  moved no remote, unless the answer to its push was lost.
- `publish` does not look for a rebase that somebody left open. A call that names no files, is not in local mode
  and finds no leak can come to abort it, and then what only the interrupted HEAD held is held no more:
  `GitPublish.LosesOverOpenRebase` is such a clone. Everything else is kept also then, the branch's own work
  included, and every other run and every other call keeps everything (`GitPublish.KeepsWork` in the contract of
  `Publish`). Without an open rebase nothing is ever lost. The guard and the quarantine lose nothing over an open
  rebase either, as long as HEAD is detached, where a rebase puts it.
- The guard lets a cycle go on as "ahead" when the tracking ref cannot be read after a successful fetch.
  `GitGuard.GoingOnIsInformed`: its verdicts that let a cycle go on are true of every branch and remote that its
  readings fit, if and only if the tracking ref was read.
- The release lane judges a push by the refs of the pusher's clone. A release of development that was never
  published is accepted (`Lanes.UnpublishedWorkIsReleased`), and so is a developer that is behind a main the
  pusher has not fetched (`Lanes.StaleMainIsEnough`). `Lanes.MainStaysClean` holds for all pushes and names
  every source a commit on main can have; with checks that worked on published development
  (`Lanes.ReleaseLaneSafety`) the release contract holds.
- The diff reader takes form feeds, vertical tabs and the other separators that Python's splitlines knows and
  git does not for line ends. It loses what stands behind one in an added line (`DiffReader.FormFeedHides`), and
  reads what stands behind one in a removed line or a heading (`DiffReader.RemovedTextIsRead`). It takes the
  quoted form in which git prints a name with a quote, a backslash, a control character or a character outside
  ASCII for the name (`DiffReader.QuotedNameIsMisread`). `DiffReader.LinesReadExactly` says exactly, for every
  diff, when each line is read as what it was printed for. `DiffReader.ReadsBackExactly` says the same of the
  result as a whole; `DiffReader.TwoWrongs` shows why it has a premise there. A new file without any hunk gives no filename to scan (`DiffReader.EmptyFileIsNotNamed`).
- A bridge reply whose id is an array or an object ends the reader without telling anyone
  (`BridgeChannel.KeylessEndsReader`); callers are then answered by their own timeouts. A reply with id `true` or
  `1.0` reaches the caller that was given id 1 (`BridgeChannel.TrueIsOne`).

## Model

| member | source | states |
|---|---|---|
| `RelayTypes.SelectTakesFirstFree` | 03-INFRA/agent-universal-layer/council/relay.py:305-323 | selection takes the first candidate that is untried, outside the pool that just failed and not quarantined when it was looked at, and refuses exactly when there is none |
| `RelayTypes.BlockedByLastFailure` | 03-INFRA/agent-universal-layer/council/relay.py:109-119 | after any history of failures a pool is blocked exactly until its own latest failure has worn off: the short time behind its first failure, the extended time behind a later one |
| `RelayTypes.NextResetIsNearest` | 03-INFRA/agent-universal-layer/council/relay.py:121-125 | the named reset is the smallest deadline among the candidates’ pools that are still blocked when looked at; none is named exactly when no pool is |
| `RelayLoop.SelectStageCandidate` | 03-INFRA/agent-universal-layer/council/relay.py:305-323 | the loop over candidates is the selection function, with the same clock readings |
| `RelayLoop.TurnUsesACandidate` | 03-INFRA/agent-universal-layer/council/relay.py:387-425 | a failed attempt leaves strictly fewer untried candidates, so a stage ends |
| `RelayLoop.RunRelayStage` | 03-INFRA/agent-universal-layer/council/relay.py:378-425 | one stage with its fallbacks: same record or error, attempts, quarantine table, calls and clock readings as the recursive reference |
| `RelayLoop.RelayEphemeral` | 03-INFRA/agent-universal-layer/council/council.py:212-223 | the whole ephemeral relay: stages in order, stopped by REJECT before the last stage, a refusal, or a seat failure |
| `RelayGraph.BeginNode` | 03-INFRA/agent-universal-layer/council/relay_graph.py:170-196 | the begin node counts the attempt and saves who is about to run before any call, or raises without saving |
| `RelayGraph.CompleteNode` | 03-INFRA/agent-universal-layer/council/relay_graph.py:199-268 | the complete node calls the pending seat once and saves a record, a failure or a quarantine, and nothing else |
| `RelayGraph.StepKeepsCheckpoint` | 03-INFRA/agent-universal-layer/council/relay_graph.py:170-327 | every node keeps the checkpoint invariant: records fit their stages, attempts are numbered without gaps, reserved calls equal traced attempts plus the pending one, trace and records tell the same story |
| `RelayGraph.StepMakesProgress` | 03-INFRA/agent-universal-layer/council/relay_graph.py:271-302 | stages left, then untried candidates, then the node: every step makes the measure smaller, so a run ends |
| `RelayGraph.Session.Invoke` | 03-INFRA/agent-universal-layer/council/relay_graph.py:340-372 | the engine loop saves after each node and ends where the run function ends, with a well-formed checkpoint also when a node raises |
| `RelayRefinement.AttemptIsATurn` | 03-INFRA/agent-universal-layer/council/relay_graph.py:170-268 | begin and complete together are one turn of the ephemeral stage loop, whatever its outcome |
| `RelayRefinement.StageSimulates` | 03-INFRA/agent-universal-layer/council/relay_graph.py:271-302 | a stage of the graph with all its fallbacks ends as the stage loop ends |
| `RelayRefinement.RunGraphKeepsCheckpoint` | 03-INFRA/agent-universal-layer/council/relay_graph.py:170-327 | the checkpoint a run ends with is well formed |
| `RelayRefinement.GraphRefinesLoop` | 03-INFRA/agent-universal-layer/council/council.py:212-223 | for every stage list, clock and provider: the graph makes the same calls with the same prompts, reads the clock as often, and ends with the same records, quarantine table, attempts and stop reason as the ephemeral loop |
| `RelayRefinement.RunBoth` | 03-INFRA/agent-universal-layer/council/council.py:212-223 | the two programs, run on machines in the same state, leave them in the same state and agree on completion, rejection and error |
| `RelayHistory.KeptSession.Rebuild` | 03-INFRA/agent-universal-layer/council/relay_graph.py:557-609 | resume refuses failed and finished runs, refuses an uncertain call without the override, and otherwise books the accepted rerun |
| `RelayHistory.EveryCheckpointIsOk` | 03-INFRA/agent-universal-layer/council/relay_graph.py:183-302 | after any history of nodes, crashes and resumes the checkpoint invariant holds, accepted reruns included |
| `RelayHistory.NeverCalledTwice` | 03-INFRA/agent-universal-layer/council/relay_graph.py:507-515 | without the override no seat is really called twice for the same stage |
| `RelayHistory.CallsWithinBudget` | 03-INFRA/agent-universal-layer/council/relay_graph.py:183-195 | real calls never exceed the reserved ones, and every attempt with a saved outcome was a real call |
| `RelayHistory.OverMeansOver` | 03-INFRA/agent-universal-layer/council/relay_graph.py:305-327 | a run saved as failed, completed or rejected calls no seat and changes nothing any more |
| `RelayHistory.DoubtIsNotSilent` | 03-INFRA/agent-universal-layer/council/relay_graph.py:580-588 | while a called but unsaved attempt is pending, nothing but the override goes on |
| `RelayHistory.CrashOutsideACallIsHarmless` | 03-INFRA/agent-universal-layer/council/relay_graph.py:507-515 | a crash outside a provider call is resumed without the override, exactly where the run was |
| `JsoncScan.StripComments` | 03-INFRA/scripts/nexgen_core/jsonc.py:14-64 | the in-place loop with its string, escape and comment flags writes what the stripper function says, and fails exactly on an unclosed block comment |
| `JsoncScan.StripTrailingCommas` | 03-INFRA/scripts/nexgen_core/jsonc.py:67-108 | the loop blanks exactly the commas outside strings that a closing bracket follows behind whitespace and comments |
| `JsoncScan.SkipJsoncTrivia` | 03-INFRA/scripts/nexgen_core/jsonc.py:116-137 | the skipper stops at the first character behind whitespace and comments |
| `JsoncScan.StringEnd` | 03-INFRA/scripts/nexgen_core/jsonc.py:140-151 | the string ends behind its first unescaped quote |
| `JsoncScan.BracketEnd` | 03-INFRA/scripts/nexgen_core/jsonc.py:171-197 | the matcher stops behind the bracket that empties its stack, and fails on a mismatch or at the end |
| `JsoncScan.ValueEnd` | 03-INFRA/scripts/nexgen_core/jsonc.py:154-197 | a value ends where the scanner for its kind says |
| `JsoncLaws.StripperLaws` | 03-INFRA/scripts/nexgen_core/jsonc.py:14-64 | stripping keeps the length and every line break, only turns other characters into spaces, and is idempotent |
| `JsoncLaws.StringsAreKept` | 03-INFRA/scripts/nexgen_core/jsonc.py:26-36 | a string literal in code is copied unchanged and stripping goes on right behind it |
| `JsoncLaws.TriviaAgrees` | 03-INFRA/scripts/nexgen_core/jsonc.py:116-137 | trivia skipping stops at the same offset on the raw and on the stripped text, when no comment holds a lone carriage return |
| `JsoncLaws.BracketsAgree` | 03-INFRA/scripts/nexgen_core/jsonc.py:171-197 | bracketed values end at the same offset on the raw and on the stripped text, or on neither |
| `JsoncLaws.ScalarEndsAgree` | 03-INFRA/scripts/nexgen_core/jsonc.py:160-169 | the scan of a scalar without quotes goes on, on the stripped text, from the offset where it ends on the raw text |
| `JsoncLaws.ValueEndsAgree` | 03-INFRA/scripts/nexgen_core/jsonc.py:154-197 | strings and bracketed values end at the same offset on both texts |
| `JsoncLaws.ScalarOverTrivia` | 03-INFRA/scripts/nexgen_core/jsonc.py:160-169 | on the stripped text a scalar runs on to the comma or bracket that the trivia skipper finds behind the comments of the raw text |
| `JsoncTwins.WalksAgree` | 03-INFRA/scripts/nexgen_core/jsonc.py:200-275 | where the walk succeeds and no scalar holds a quote, both member walks find the same members on the stripped text: same names, same offsets of key, value, end and next member, but for the end of a scalar that a comment follows |
| `JsoncTwins.ScalarsPart` | 03-INFRA/scripts/nexgen_core/jsonc.py:160-235 | two concrete documents: behind a scalar, a comment and no comma, the walk fails on the raw text and succeeds on the stripped one |
| `JsoncTwins.QuotesPart` | 03-INFRA/scripts/nexgen_core/jsonc.py:26-36 | two concrete documents: with a quote inside a scalar the walk succeeds on the raw text and fails on the stripped one |
| `JsoncLaws.LoneCarriageReturnParts` | 03-INFRA/scripts/nexgen_core/jsonc.py:40-46 | a lone carriage return in a line comment is where stripper and skipper part: a concrete text |
| `JsoncRoundTrip.ParseJsoncReadsPrint` | 03-INFRA/scripts/nexgen_core/jsonc.py:111-113 | parsing a printed document, with any trivia, comments and one trailing comma each, gives its meaning |
| `JsoncRoundTrip.ParseJsoncRefuses` | 03-INFRA/scripts/nexgen_core/jsonc.py:111-113 | a document with a raw control character or an unknown escape in any literal does not parse, comments or not |
| `JsoncWalk.ValueRestOf` | 03-INFRA/scripts/nexgen_core/jsonc.py:154-197 | on a printed document a value’s span ends behind the value, and behind a scalar also behind the whitespace |
| `JsoncWalk.WalkFindsLast` | 03-INFRA/scripts/nexgen_core/jsonc.py:210-235 | the span walk finds the last member of that name, on every well-formed list |
| `JsoncWalk.WalkFindsAll` | 03-INFRA/scripts/nexgen_core/jsonc.py:254-275 | the remover’s walk finds every member of that name, in order |
| `JsoncSurgeon.TopLevelValueSpan` | 03-INFRA/scripts/nexgen_core/jsonc.py:200-235 | the walk loop returns the span the specification names, or fails where it fails |
| `JsoncSurgeon.ReindentLines` | 03-INFRA/scripts/nexgen_core/jsonc.py:312-327 | every line of the serialized value but the first gets the indent |
| `JsoncSurgeon.SetTopLevelValue` | 03-INFRA/scripts/nexgen_core/jsonc.py:300-343 | the edit of the text, and its self-check, as specified |
| `JsoncSurgeon.CollectSpans` | 03-INFRA/scripts/nexgen_core/jsonc.py:254-275 | the spans of all pairs of that name, as offsets |
| `JsoncSurgeon.CutBackToFront` | 03-INFRA/scripts/nexgen_core/jsonc.py:278-293 | the pairs are cut last first, each with one comma |
| `JsoncSurgeon.RemoveTopLevelValue` | 03-INFRA/scripts/nexgen_core/jsonc.py:238-297 | the removal of the text, and its self-check, as specified |
| `JsoncLens.ReindentIsSubst` | 03-INFRA/scripts/nexgen_core/jsonc.py:312-314 | for a text without carriage returns, reindenting puts a newline and the indent in the place of every line separator, wherever it stands |
| `JsoncLens.SetReplaces` | 03-INFRA/scripts/nexgen_core/jsonc.py:306-315 | setting a key that is there, when no literal breaks and the value is not NaN: the self-check passes, the parsed object changes at that key only, and the text changes inside the last occurrence’s span only |
| `JsoncLens.SetInserts` | 03-INFRA/scripts/nexgen_core/jsonc.py:316-337 | setting a new key, when no literal breaks and the value is not NaN: the self-check passes, the parsed object gains that key only, and the text gains one member behind the opening brace |
| `JsoncLens.SetIsALens` | 03-INFRA/scripts/nexgen_core/jsonc.py:300-343 | on every well-formed document, for every value as json.dumps writes it: set succeeds if and only if reindenting breaks no string and the value is not NaN, and then the result parses to the old object with the key set |
| `JsoncLens.SeparatorIsRefused` | 03-INFRA/scripts/nexgen_core/jsonc.py:324-327 | a concrete value that cannot be set: a string with U+2028 under a new key |
| `JsoncLens.NanIsRefused` | 03-INFRA/scripts/nexgen_core/jsonc.py:339-343 | NaN can be set in no document under any key |
| `JsoncRemove.BackOverTrivia` | 03-INFRA/scripts/nexgen_core/jsonc.py:286-293 | where the look back for a comma ends: over whitespace it goes on, a comment stops it unless the comment ends in a comma |
| `JsoncRemove.CutsPrint` | 03-INFRA/scripts/nexgen_core/jsonc.py:278-293 | cutting all pairs back to front prints the members without the key, wherever the pairs stand and whichever have commas |
| `JsoncRemove.KeptMeans` | 03-INFRA/scripts/nexgen_core/jsonc.py:238-246 | the document without the key is well formed, and parses to the old object minus the key |
| `JsoncRemove.RemoveIsExact` | 03-INFRA/scripts/nexgen_core/jsonc.py:238-297 | removal writes exactly the document without the key if and only if no pair that must take the comma in front of it finds one at the end of a comment |
| `JsoncRemove.CommentCommaIsTaken` | 03-INFRA/scripts/nexgen_core/jsonc.py:286-293 | a concrete text where it does |
| `JsoncKeep.RemoveKeepsAll` | 03-INFRA/scripts/nexgen_core/jsonc.py:238-246 | the text stays as it is but for the pairs and one comma each if and only if no pair takes a comma out of a comment and nothing stands where the cuts reach farther: between a value and its comma, or between the comma in front and the pair |
| `JsoncKeep.RemoveKeepsComments` | 03-INFRA/scripts/nexgen_core/jsonc.py:238-246 | all comments outside the pairs and all other pairs stay, in order, if and only if no pair takes a comma out of a comment and no comment stands between a removed value and the comma behind it |
| `JsoncKeep.CommentIsRemoved` | 03-INFRA/scripts/nexgen_core/jsonc.py:280-283 | a concrete text where a comment goes |
| `JsoncKeep.CommentComesAlive` | 03-INFRA/scripts/nexgen_core/jsonc.py:284-297 | a concrete text where the removal succeeds and a commented-out member becomes one |
| `JsoncJoin.BackToComment` | 03-INFRA/scripts/nexgen_core/jsonc.py:286-293 | where the look back ends when it takes a comma out of a comment: at the last comma the comment ends in |
| `JsoncJoin.RemoveJoins` | 03-INFRA/scripts/nexgen_core/jsonc.py:238-297 | a removal that takes a comma out of a comment, when the removed pair’s line ends outside block comments: it writes the document without the key whose comment has lost its comma and won the rest of that line |
| `JsoncJoin.RemoveMeans` | 03-INFRA/scripts/nexgen_core/jsonc.py:238-297 | on every well-formed document where no comma is taken out of a comment, or the removed pair’s line ends so: the removal succeeds and the result parses to the old object minus the key |
| `JsoncJoin.BraceIsTaken` | 03-INFRA/scripts/nexgen_core/jsonc.py:286-297 | a concrete document where the closing brace joins the comment and the removal fails |
| `JsoncRemove.RemoveOnlyDeletes` | 03-INFRA/scripts/nexgen_core/jsonc.py:238-297 | for every text: what removal returns is the text with characters left out, and it is unchanged or parses to an object without the key |
| `GitCommits.ClassifyIsAncestry` | 03-INFRA/scripts/nexgen_core/git_ops.py:521-534 | in every DAG, whatever merge base git answers: same, behind, ahead and diverged are told exactly by ancestry |
| `GitCommits.NothingUnique` | 03-INFRA/scripts/nexgen_core/git_ops.py:712-724 | counting no commit of the mirror outside the branch means that the mirror’s tip is an ancestor |
| `GitRepo.Repo.Push` | 03-INFRA/scripts/nexgen_core/git_ops.py:621-624 | what a push may do: a fast-forward, or with a lease a compare-and-swap against the tracking ref; a reported failure may hide a lost answer |
| `GitRepo.Repo.Rebase` | 03-INFRA/scripts/nexgen_core/git_ops.py:653-667 | what a rebase may do: replay all work on the remote’s tip, refuse over unsaved changes or inside another rebase, or stop with HEAD detached |
| `GitPublish.UncommittedChanges` | 03-INFRA/scripts/nexgen_core/git_ops.py:384-413 | the tracked changes, or none when the status cannot be read |
| `GitPublish.AutoCommitInfra` | 03-INFRA/scripts/nexgen_core/git_ops.py:100-116 | all work is kept; the changes to infrastructure files are on HEAD afterwards when the status was read, and changes to other files stay uncommitted |
| `GitPublish.QuarantineDiverged` | 03-INFRA/scripts/nexgen_core/git_ops.py:127-179 | all work is kept; success parks the old branch tip and moves the branch to the remote’s; HEAD off the branch, or unsaved or unreadable changes, refuse |
| `GitPublish.CommitRequested` | 03-INFRA/scripts/nexgen_core/git_ops.py:556-576 | what the caller asked to commit is on HEAD afterwards; changes to other files stay uncommitted when files are named |
| `GitPublish.StashDirty` | 03-INFRA/scripts/nexgen_core/git_ops.py:642-651 | whether an entry appeared is told right when both lists could be read |
| `GitPublish.GiveUpRebase` | 03-INFRA/scripts/nexgen_core/git_ops.py:666-694 | abort, give the stash back, park: what was held before the rebase is held after, on every path |
| `GitPublish.Reconcile` | 03-INFRA/scripts/nexgen_core/git_ops.py:640-694 | diverged: replayed and pushed, or parked and reported as not published; on success nothing stays in the stash; all work is kept, except that aborting somebody’s open rebase lets go of what only its HEAD held |
| `GitPublish.CompareTips` | 03-INFRA/scripts/nexgen_core/git_ops.py:594-616 | fetch, then compare by ancestry; nothing is decided when a ref cannot be read |
| `GitPublish.BringTogether` | 03-INFRA/scripts/nexgen_core/git_ops.py:618-694 | the four cases, with the same promise about work; a caller that names its files has nothing stashed, parked, rebased or aborted |
| `GitPublish.UpdateMirror` | 03-INFRA/scripts/nexgen_core/git_ops.py:705-737 | a mirror only ever moves forward, also when it moved meanwhile or its fetch failed |
| `GitPublish.UpdateMirrors` | 03-INFRA/scripts/nexgen_core/git_ops.py:698-737 | each mirror once, never the primary; with no note every mirror holds the branch |
| `GitPublish.Publish` | 03-INFRA/scripts/nexgen_core/git_ops.py:537-746 | no work lost on any run but one that comes to abort somebody’s open rebase, which keeps all but what only the interrupted HEAD held; naming files, local mode or a leak excludes it; an honest verdict in both directions; every push moved its remote forward and went to a named one; nothing is pushed in local mode or to the engine’s own repository |
| `GitPublish.LosesOverOpenRebase` | 03-INFRA/scripts/nexgen_core/git_ops.py:653-694 | a concrete clone in the middle of a rebase: every publish that aborts it drops the work of the interrupted HEAD, unless the remote has it |
| `GitGuard.Inspect` | 03-INFRA/scripts/nexgen_core/git_ops.py:436-534 | the state is what the readings tell, exactly by ancestry when the tracking ref was read; inspection moves nothing but the tracking ref |
| `GitGuard.GoingOnIsInformed` | 03-INFRA/scripts/nexgen_core/git_ops.py:498-534 | a verdict that lets the cycle go on is true of every branch and remote that the readings fit, if and only if the tracking ref was read |
| `GitGuard.RealignDiverged` | 03-INFRA/scripts/nexgen_core/guard_git.py:94-109 | rebase, else abort and park: all work kept, and success means that the remote’s tip is part of the branch |
| `GitGuard.ConvergeGitPhase` | 03-INFRA/scripts/nexgen_core/guard_git.py:53-112 | the guard never pushes, keeps all work, also over an open rebase, and lets the cycle go on behind a tracking ref that was read only with the remote’s tip in the branch |
| `GitGuard.PerformAll` | 03-INFRA/scripts/nexgen_core/git_ops.py:749-764 | any sequence of guard phases, quarantines and publishes keeps all work and moves every remote forward only, up to the first publish without files, outside local mode and without a leak that meets an open rebase |
| `Lanes.CheckMerges` | 03-INFRA/scripts/nexgen_core/lanes.py:68-75 | the loop complains of every new commit on main’s line that is not a two-parent merge of development |
| `Lanes.NoProblems` | 03-INFRA/scripts/nexgen_core/lanes.py:68-76 | no complaint exactly when all of them are release merges |
| `Lanes.CheckRef` | 03-INFRA/scripts/nexgen_core/lanes.py:29-76 | accepted exactly when every ref resolves, local refs first, and the push descends from the previous tip, contains published main (developer), or adds release merges only (main) |
| `Lanes.WalkExplains` | 03-INFRA/scripts/nexgen_core/lanes.py:65-75 | what release merges on top of the previous tip can bring in, also when their first parents bypass it |
| `Lanes.MainStaysClean` | 03-INFRA/scripts/nexgen_core/lanes.py:29-76 | over all pushes of any clones: every commit on main was there first, is in a developer tip or a foreign base that a pusher’s check resolved, or is a two-parent merge on main’s line; no branch loses a commit |
| `Lanes.ReleaseLaneSafety` | 03-INFRA/scripts/nexgen_core/lanes.py:48-76 | with checks that worked on tips main had and on published development: every commit on main was there first, is in developer, or is a release merge on main’s line |
| `Lanes.DeveloperKeepsUp` | 03-INFRA/scripts/nexgen_core/lanes.py:48-58 | an accepted developer tip contains the published one, the pusher’s base, and every tip of main that the pusher’s published main descends from |
| `Lanes.UnpublishedWorkIsReleased` | 03-INFRA/scripts/nexgen_core/lanes.py:18-23 | a concrete push: a release of development that was never published is accepted |
| `Lanes.StaleMainIsEnough` | 03-INFRA/scripts/nexgen_core/lanes.py:51-58 | a concrete push: a developer behind a main that was not fetched is accepted |
| `Template.SplitIfBlock` | 03-INFRA/scripts/nexgen_core/config.py:154-184 | the depth-counting splitter returns the block’s own branches and the offset behind its own end |
| `Template.ExpandIfBlocks` | 03-INFRA/scripts/nexgen_core/config.py:130-151 | the loop replaces every block by its selected branch, after expanding both |
| `Template.ExpandInlineTemplates` | 03-INFRA/scripts/nexgen_core/config.py:94-127 | the whole expansion, with the same errors in the same order |
| `Template.TemplatesExpand` | 03-INFRA/scripts/nexgen_core/config.py:94-127 | every well-formed template with known names expands to its value |
| `Template.ExpandedIsTemplate` | 03-INFRA/scripts/nexgen_core/config.py:94-184 | whatever expands is a well-formed template with known names |
| `Template.ExpandIsEvaluation` | 03-INFRA/scripts/nexgen_core/config.py:94-184 | expansion succeeds with a text if and only if the tokens are a balanced template, with at most one else for each block and all names known, that evaluates to it |
| `Template.BothBranchesCount` | 03-INFRA/scripts/nexgen_core/config.py:144-149 | success depends on the names of the context, not on its values: a branch that is not selected is checked too |
| `CancelRegistry.Registry.EndCancel` | 03-INFRA/agent-universal-layer/council/session.py:291-293 | exactly the tracked tokens leave the registry |
| `CancelRegistry.EventKeeps` | 03-INFRA/agent-universal-layer/council/session.py:222-294 | every event keeps the registry invariant |
| `CancelRegistry.Drive` | 03-INFRA/agent-universal-layer/council/session.py:222-294 | a registry object, driven by any interleaving of runs and cancellations through its locked methods, is always the registry of the state that the events lead to |
| `CancelRegistry.CancelReaches` | 03-INFRA/agent-universal-layer/council/session.py:227-294 | in every interleaving: a process whose run read its epoch before a finished cancellation was asked to stop or had ended, or its registration is still to come and will refuse it and ask |
| `CancelRegistry.TrackedUntilAsked` | 03-INFRA/agent-universal-layer/council/session.py:270-290 | during a cancellation every earlier process is tracked until it is asked |
| `CancelRegistry.NoOtherDropped` | 03-INFRA/agent-universal-layer/council/session.py:240-242 | a release drops no other run’s process, even when addresses are reused; what a cancellation drops it has asked |
| `BridgeChannel.Channel.Take` | 03-INFRA/scripts/nexgen_core/mcp_bridge_channel.py:137-138 | a message is taken by the waiter whose id equals its id as a Python key, or by nobody |
| `BridgeChannel.EventKeeps` | 03-INFRA/scripts/nexgen_core/mcp_bridge_channel.py:63-193 | every event keeps the invariant that ties ids, callers and deliveries |
| `BridgeChannel.Drive` | 03-INFRA/scripts/nexgen_core/mcp_bridge_channel.py:63-193 | a channel object, driven by any interleaving of callers, readers, backends and timeouts through its locked methods, always has the table, backend and closed flag of the state that the events lead to |
| `BridgeChannel.IdsAreNeverReused` | 03-INFRA/scripts/nexgen_core/mcp_bridge_channel.py:169-174 | two calls never have the same id, across timeouts, exits and restarts |
| `BridgeChannel.AnswersBelong` | 03-INFRA/scripts/nexgen_core/mcp_bridge_channel.py:119-182 | an answer carries the caller’s own id, and is made by the bridge or is a backend message with the id given to this call and no other |
| `BridgeChannel.AnswersAreFinal` | 03-INFRA/scripts/nexgen_core/mcp_bridge_channel.py:163-182 | an answer, once given, never changes |
| `BridgeChannel.MessageReaches` | 03-INFRA/scripts/nexgen_core/mcp_bridge_channel.py:119-143 | in every reachable state a message reaches a waiting caller exactly when its id is that caller’s as a Python key, nobody else’s slot changes, and waking answers with it under the caller’s own id |
| `BridgeChannel.DeliveredStays` | 03-INFRA/scripts/nexgen_core/mcp_bridge_channel.py:163-182 | whatever happens after a delivery, the call is answered with it, or by its own timeout if it gave up |
| `BridgeChannel.KeylessEndsReader` | 03-INFRA/scripts/nexgen_core/mcp_bridge_channel.py:133-143 | a message ends its reader exactly when its id is an array or an object; then nobody is told, and nothing of that backend is ever read again |
| `BridgeChannel.TrueIsOne` | 03-INFRA/scripts/nexgen_core/mcp_bridge_channel.py:137-142 | a concrete run: a reply with id true answers the request with id 1, one with an array as id leaves it waiting |
| `BridgeChannel.ExitTellsAll` | 03-INFRA/scripts/nexgen_core/mcp_bridge_channel.py:145-153 | when the current backend’s output ends, every waiting caller is told |
| `Framing.OutputCapture.Consume` | 03-INFRA/agent-universal-layer/council/seat_process.py:450-463 | a chunk is let through exactly when it fits the budget and nothing was refused before; both pipes share one budget |
| `Framing.DrainLines` | 03-INFRA/agent-universal-layer/council/seat_process.py:488-501 | the drain loop alone: below the budget the queue gets the lines of the concatenated text, whatever the chunks; past it the reader stops |
| `Framing.DrainPipes` | 03-INFRA/agent-universal-layer/council/seat_process.py:488-508 | both readers on one budget, their steps interleaved in any order: below the budget the queue is the lines of stdout’s text and the sink is stderr’s text |
| `Framing.DrainTwice` | 03-INFRA/agent-universal-layer/council/seat_process.py:488-508 | two runs on the same texts, cut and interleaved differently, give the same lines and the same stderr |
| `Framing.QueueIsTheText` | 03-INFRA/agent-universal-layer/council/seat_process.py:488-501 | the queued lines put together are the text, and each is one line of it |
| `Framing.ConsumeAll` | 03-INFRA/agent-universal-layer/council/seat_process.py:450-463 | a sequence of chunks of both pipes, as specified |
| `Framing.BudgetHolds` | 03-INFRA/agent-universal-layer/council/seat_process.py:450-463 | in every interleaving what is let through is a prefix within the budget, and the first refused chunk did not fit |
| `Framing.LinesAreLines` | 03-INFRA/agent-universal-layer/council/seat_process.py:494-499 | queued lines have one newline, at the end; only the last may lack it |
| `Framing.ReadStream` | 03-INFRA/agent-universal-layer/mcp/lazy_server_handle.py:312-351 | below the limit the answer depends on the concatenated stream alone |
| `Framing.EventsAreRead` | 03-INFRA/agent-universal-layer/mcp/lazy_server_handle.py:326-346 | any stream of events, with other fields and comments, either line end, leading spaces and an unfinished end, is judged payload by payload, in order |
| `Framing.FirstAnswerWins` | 03-INFRA/agent-universal-layer/mcp/lazy_server_handle.py:46-61 | the first payload not meant for somebody else decides: a frame is found exactly when it answers this request with one object, a result or an error |
| `Framing.ReadTwice` | 03-INFRA/agent-universal-layer/mcp/lazy_server_handle.py:312-351 | two readers of the same stream in different chunks end alike |
| `SeatResolver.EvaluateRole` | 03-INFRA/agent-universal-layer/council/routing.py:781-835 | the nested loops evaluate the matching seats in the document’s order |
| `SeatResolver.ScanHost` | 03-INFRA/agent-universal-layer/council/routing.py:862-898 | the fallback scan over the host’s seats |
| `SeatResolver.Resolve` | 03-INFRA/agent-universal-layer/council/routing.py:753-932 | the resolver computes the specified result |
| `SeatResolver.SortedSorts` | 03-INFRA/agent-universal-layer/council/routing.py:911-922 | the fallback order is sorted and loses no seat |
| `SeatResolver.ChosenIsFit` | 03-INFRA/agent-universal-layer/council/routing.py:753-932 | a chosen seat meets the vendor, retention, health and availability rules, and the audit trail is true of every seat in it |
| `SeatResolver.ChosenWhenever` | 03-INFRA/agent-universal-layer/council/routing.py:837-909 | with fallback a seat is chosen exactly when some seat meets all rules, without exactly when one of the role does; degraded exactly when fallback was needed |
| `SeatResolver.ChoiceFollowsTheDocument` | 03-INFRA/agent-universal-layer/council/routing.py:837-848 | the choice is the first fit seat in the document’s order |
| `SeatResolver.DegradedIsMinimal` | 03-INFRA/agent-universal-layer/council/routing.py:911-921 | a degraded choice comes before every other fit seat in the sort key |
| `SeatResolver.OrderDoesNotMatter` | 03-INFRA/agent-universal-layer/council/routing.py:911-921 | the declaration order of the seats does not change a degraded choice |
| `DiffReader.ParseAddedLines` | 03-INFRA/agent-universal-layer/leak-scan/leak_scan.py:186-216 | the loop over raw lines with its file, line number and hunk flag |
| `DiffReader.DiffRun` | 03-INFRA/agent-universal-layer/leak-scan/leak_scan.py:186-216 | line by line, a printed diff gives exactly its added lines with file and number, and one name for each file that still exists and has a hunk, whatever the added text starts with, if and only if git quotes none of these names |
| `DiffReader.LinesReadExactly` | 03-INFRA/agent-universal-layer/leak-scan/leak_scan.py:186-216 | on every diff: each printed line is read as what it was printed for, if and only if no added line holds a character that splitlines breaks at, git quotes no name of a file with a hunk, and what stands behind such a character in removed lines and headings adds nothing, leaves file and number alone, and closes no hunk over an added line that looks like a header |
| `DiffReader.ReadsBackExactly` | 03-INFRA/agent-universal-layer/leak-scan/leak_scan.py:186-216 | reading the printed text gives exactly the expected lines and names only if no added line holds a character that splitlines breaks at; and, unless a piece of removed text closed a hunk over an added line that looks like a header, if and only if that holds, git quotes no name, and what stands behind such a character in removed lines and headings adds nothing and leaves file and number alone |
| `DiffReader.QuietReadsBack` | 03-INFRA/agent-universal-layer/leak-scan/leak_scan.py:186-216 | when no piece behind a separator starts like a line of the diff, the added lines and the names alone decide |
| `DiffReader.CrlfIsQuiet` | 03-INFRA/agent-universal-layer/leak-scan/leak_scan.py:194 | removed lines that end in a carriage return have no such piece |
| `DiffReader.EveryFileIsNamed` | 03-INFRA/agent-universal-layer/leak-scan/leak_scan.py:197-206 | when the lines are read right, all existing files are named if and only if each of them has a hunk |
| `DiffReader.RemovedTextIsRead` | 03-INFRA/agent-universal-layer/leak-scan/leak_scan.py:194 | a concrete diff: the rest of a removed line behind a form feed is read as an added line |
| `DiffReader.EmptyFileIsNotNamed` | 03-INFRA/agent-universal-layer/leak-scan/leak_scan.py:197-206 | a concrete diff: a new empty file is not named |
| `DiffReader.QuotedNameIsMisread` | 03-INFRA/agent-universal-layer/leak-scan/leak_scan.py:199-206 | a concrete diff: a file whose name is one accented letter is named by its quoted form |
| `DiffReader.TwoWrongs` | 03-INFRA/agent-universal-layer/leak-scan/leak_scan.py:194-214 | a concrete diff where one such piece adds the very line that another one hides |
| `DiffReader.FormFeedHides` | 03-INFRA/agent-universal-layer/leak-scan/leak_scan.py:194-194 | a form feed inside an added line hides the rest of the line |

## Left out

- The LangGraph super-step limit, SQLite, file locks and session directories: a checkpoint is a value saved atomically after each node, with one runner at a time; checkpoints from before calls were counted are not modelled.
- Relay prompts are represented by what they are built from (role, seat, earlier records); identity hashes, egress gate and confirmation prompts are not modelled.
- JSON values: a scalar is a number, a word or one of Python's constants, read as its own text, so that 1 and 1.0 differ here and are equal in Python; string literals with valid escapes are read by an arbitrary function `decode`. json.dumps appears as its result: any strict JSON text laid out with spaces and newlines, control characters escaped.
- Messages of errors in the surgeon's methods: a method fails where its specification fails, the wording may differ.
- Git itself: each command is a method with what it may do; a rebase that succeeds is taken to keep the work of the commits it replays. Untracked files are not counted as held work. A user editing files while the engine runs is not modelled.
- GitPublish.Publish: that git can be brought to abort an open rebase on the runs that may come to it is not proved; the contract says what is kept when it does.
- GitGuard.ConvergeGitPhase: a person who switches back to the branch by hand while a rebase stands open is not covered; HEAD is taken to be detached then, where git puts it.
- JsoncLaws.TriviaAgrees: the condition on carriage returns looks at the whole rest of the text; comments with a lone one on which the scanners happen to agree again are not told apart.
- JsoncJoin.RemoveMeans: when the line of a pair that takes a comma out of a comment ends inside a block comment, at a lone carriage return or with the document, only `JsoncRemove.RemoveOnlyDeletes` speaks of the result; it can then fail (`JsoncJoin.BraceIsTaken`) or hold another member (`JsoncKeep.CommentComesAlive`).
- Checks of unsafe ref names, remote URLs and the listing of the engine's own remotes: one flag says whether a leak was found.
- The read-only checkout of the guard (vault_readonly), action notes, the report of untracked files.
- Lanes: the name of the integration branch is the default one, git commands that cannot run count as refusals of the push they would have allowed, and a server takes fast-forwards only.
- Template: characters inside one block, and braces that only come together across two tokens; context values carry no template marks. Environment placeholders are expanded elsewhere.
- CancelRegistry: kill mechanics and grace periods; asking a process to stop is one event. The old single-slot tracker is not modelled.
- BridgeChannel: writing to a dead pipe and notifications, which nobody waits for.
- Framing: UTF-8 decoding, the bounded queue's back-pressure, deadlines, and the line-based stdio transport of the lazy server; JSON parsing is an arbitrary function from text to frame.
- SeatResolver: probing the host, the parsers of the decision document, casefold, strip and the label variants (arbitrary functions), and the plain candidate list that does not apply a policy.
- DiffReader: names are quoted as git does by default (`core.quotePath` on); diffs with context lines, and digits outside ASCII in hunk headers, are not modelled.
- DiffReader.ReadsBackExactly: for a diff in which an added line that looks like a file header stands in a hunk that a piece of removed text closed, it gives one direction; `DiffReader.LinesReadExactly` covers such diffs line by line.
- Doctor checks, bootstrap, secrets prompts, notifications, path resolution, placement, packaging and dependency watching: plumbing that would only add easy members.
