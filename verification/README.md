# Rclaude: a verified model of its protocols and indexes

Rclaude lets a server mount a user's workspace that lives on another machine: a daemon on that machine
serves the files over a stream, the server keeps an index and a content cache of them, and a PTY service
runs an agent on the server for a remote terminal. A startup coordinator brings the daemon and the PTY
client up together. This project models those parts in Dafny and proves what they promise over every
input, every run and every interleaving.

Modules, one per file:

- `Dependencies`, `Startup`, `StartupInvariants`, `StartupTheorems`, `StartupProgress`, `StartupStability`,
  `StartupDemotion`, `StartupEvents`, `StartupRetries`, `Supervisor`: the startup coordinator. The dependency
  check is a method over the colour map; the protocol is a step system with one program counter per
  goroutine, the phases under the lock, the bounded failure, retry and overflow channels, the abort flag and
  the cancellation. One action is one critical section, one channel operation or one event sent. The main
  invariant balances, per component, failures published, failures handled and retries given;
  `StartupRetries` says who is owed a retry and what each abort is due to.
- `Paths`, `FileTree`, `ContentCache`, `Daemon`, `CoherentReads`, `IndexSync`, `ChangeMessages`,
  `SessionFiles`: the read path. Path
  strings are modelled with the lexical rules of Go's `path.Clean`; the tree and the cache are objects
  whose methods are proved against plain maps and recency lists; the daemon's workspace is a map from path
  to file or directory. `CoherentReads` is the argument that a cached read equals a direct read,
  `IndexSync` the one about when the index keeps up with the workspace under the view's own calls, and
  `ChangeMessages` under edits the daemon reports.
- `PtySlots`, `PtyAttach`, `PtyShared`, `PtyClient`: the PTY service's slot table and discipline, the attach
  handler, any number of attaches over one table, and the client's receive side.
- `PendingRequests`, `PendingAnswers`, `SessionTable`: request matching on one session (who owns, sends on and
  closes each response channel; what each call returns), and the manager's session table.
- `PathLocker`, `RateLimiter`: the daemon's lock table and the token bucket.
- `Basics`: shared types.

State machines come as `Enabled`, `Next` (or `Effect`) and `Run`; clocks, network results, scheduling
choices and what external programs do are the actions' parameters. Theorems are stated over whole runs.

Four properties one might expect are false of the code as it stands. For each the model has a failing run
and the exact condition under which the property holds:

- A started component can be demoted. It never happens if and only if there are two components, or at most
  two attempts, or of any two components one depends on the other (`StartupDemotion.NeverDemotesIff`;
  the smallest failing configuration is `StartupDemotion.TrioDemotesStarted`).
- With a read limit on the daemon, cached reads and direct reads differ beyond the limit
  (`CoherentReads.LimitedReadDiverges`). They agree on a file exactly when it is not cacheable or the limit
  does not bite (`CoherentReads.LimitedReadsAgreeIff`). Over all runs, whose first index may be older than the
  workspace, that is when there is no limit or no cache (`CoherentReads.AlwaysAgreesIff`); over runs whose
  index has the right sizes, when there is no limit or the cache takes no file above it
  (`CoherentReads.HonestlyAgreesIff`).
- The index can lose files the daemon still holds: renaming a directory enters only the directory at its new
  path. The index keeps up with every run of calls exactly when none renames a directory with something below
  it (`IndexSync.RunInSyncIff`); what such a rename hides is `IndexSync.RenamedReadsIff`.
- One call's cleanup can close another call's channel when two calls share an id
  (`PendingRequests.SharedIdClosedUnderneath`). An assignment of ids to calls is safe in every run exactly
  when it never repeats an id (`PendingRequests.AlarmFreeIff`); ids the session generates are such, and so
  are distinct ids callers choose. Within a run it is enough that no two unreturned calls share one.

## Model

| member | source | states |
|---|---|---|
| `Dependencies.VisitForCycle` | pkg/startup/coordinator.go:194-208 | one depth-first visit from a white node either finds a cycle or finishes the node with everything below it in dependency order, keeping gray = recursion path and black = finished; it terminates because the white set shrinks |
| `Dependencies.EnsureAcyclic` | pkg/startup/coordinator.go:181-192 | accepts a closed graph if and only if it has no cycle |
| `Dependencies.BuildDependencies` | pkg/startup/coordinator.go:149-179 | on success the graph is exactly the declared one and acyclic; each error names a spec that really has that fault |
| `Dependencies.New` | pkg/startup/coordinator.go:104-145 | a spec list is accepted if and only if it has two or more distinct names, no self or unknown dependency and no cycle; which refusal is given is characterised both ways |
| `Dependencies.SelfBlockedSetHasCycle` | pkg/startup/coordinator.go:181-208 | a set of components each waiting for another member of the set contains a cycle of the graph |
| `StartupInvariants.StepKeeps` | pkg/startup/coordinator.go:264-402 | every step of any goroutine keeps the invariant that balances failures published, failures unhandled, retries given and promises |
| `StartupInvariants.ExecutionKeeps` | pkg/startup/runner.go:13-145 | the invariant holds after every execution of an accepted configuration |
| `StartupTheorems.DeadlockFreedom` | pkg/startup/runner.go:13-145 | for any number of components and any accepted graph, a reachable uncancelled state in which the protocol cannot move on its own is one where every component has started |
| `StartupProgress.StepUsesWork` | pkg/startup/runner.go:13-145 | every step, of any goroutine or from outside, leaves less of a finite amount of work |
| `StartupProgress.MaximalRunStartsAll` | pkg/startup/coordinator.go:264-402 | a run that cannot go on by itself and was not cancelled has started every component, within a bound fixed by the configuration |
| `StartupProgress.RunCanSettle` | pkg/startup/coordinator.go:264-402 | from every reachable uncancelled state the protocol's own steps lead to one in which all components have started or an abort was sent; `StartupRetries.EveryRunSettles` says what the abort is due to |
| `StartupRetries.HandledFailureIsOwedOneRetry` | pkg/startup/coordinator.go:327-360 | handling a failure raises the retries given to that component by one exactly when it has attempts left and a peer is started or a dependent pending; nobody else's change |
| `StartupRetries.OwedRetryIsQueued` | pkg/startup/coordinator.go:264-299 | the retry owed is published next and lands in the component's queue unless that is full |
| `StartupRetries.OverflowHasCause` | pkg/startup/coordinator.go:264-299 | in every execution an overflow abort, decided or sent, was preceded by a send on a full failure or retry channel |
| `StartupRetries.AbortsJustified` | pkg/startup/coordinator.go:410-416 | in every execution each abort has its cause: a full channel earlier, a component that gave up at its last attempt, or all components down with none started |
| `StartupRetries.ExecutionGivesUpLast` | pkg/startup/runner.go:13-45 | in every execution a component gives up only at attempt maxAttempts |
| `StartupRetries.PairNeverOverflows` | pkg/startup/coordinator.go:264-299 | with two components no channel is ever sent on while full and no overflow abort ever fires, whatever the number of attempts |
| `StartupRetries.EveryRunSettles` | pkg/startup/coordinator.go:264-402 | every uncancelled run can be continued by the protocol's own steps until all components have started or an abort with such a cause was sent |
| `StartupRetries.PairSettles` | pkg/startup/coordinator.go:264-402 | for two components: until both started, one gave up at its last attempt, or both are down |
| `StartupStability.DependenciesFirst` | pkg/startup/runner.go:47-59 | in every execution, when a component has got past waiting, everything it depends on, directly or not, has called ready |
| `StartupTheorems.StuckMeansNoneAwaitsDeps` | pkg/startup/runner.go:47-59 | in such a state nobody waits for a dependency, since the waiters would form a cycle |
| `StartupTheorems.StuckMeansNoneAwaitsRetry` | pkg/startup/coordinator.go:327-360 | in such a state nobody waits for a retry, since the last failure handled would have aborted |
| `StartupTheorems.FirstStartedStaysStarted` | pkg/startup/runner.go:90-113 | the first component to start is in the started phase in every later state, so every other component always has a started peer |
| `StartupTheorems.AllFailedExcludesStart` | pkg/startup/coordinator.go:327-402 | once the all-failed abort is decided or sent, no component has started and none is attempting to |
| `StartupTheorems.AnchorStays` | pkg/startup/coordinator.go:327-336 | no step demotes a started component whose failures were all handled before it started |
| `StartupDemotion.NeverDemotesIff` | pkg/startup/coordinator.go:327-360 | for every accepted configuration: no run ever sets a started component back if and only if there are two components, or at most two attempts, or of any two components one depends on the other |
| `StartupStability.SafeNeverDemotes` | pkg/startup/coordinator.go:327-360 | in those configurations a started component keeps its started phase in every reachable state |
| `StartupDemotion.UnrelatedDemotes` | pkg/startup/coordinator.go:332-336 | for any two unrelated components, a third one and three attempts there is a run in which one of the two is demoted |
| `StartupStability.PairStepKeepsFair` | pkg/startup/runner.go:90-123 | with two components every step keeps the one-retry-per-failure books |
| `StartupStability.OrderedStepKeeps` | pkg/startup/runner.go:47-59 | when the dependencies order all components, every step keeps the books, and nobody alive is ever promised a peer's retry |
| `StartupStability.StepKeepsOnce` | pkg/startup/runner.go:13-45 | with at most two attempts every step keeps that a component uses its only retry after its only failure was handled |
| `StartupStability.OneRetryPerFailure` | pkg/startup/coordinator.go:327-360 | with two components, or components ordered by their dependencies, a live component that has not started never got more retries than failures of it were handled |
| `StartupDemotion.TrioDemotesStarted` | pkg/startup/coordinator.go:332-336 | three independent components with three attempts are an accepted configuration in which a started component can be demoted |
| `StartupDemotion.SecondRetry` | pkg/startup/runner.go:90-123 | a peer that starts while a component with a granted retry still waits gives it a second retry for the same failure |
| `StartupEvents.TraceGrammar` | pkg/startup/runner.go:13-133 | every event trace has, per component, nothing, one Started, one Started then Exited of the same attempt, or one GaveUp; at most one Aborted; no unknown component |
| `StartupEvents.ClosedTrace` | pkg/startup/coordinator.go:213-262 | when the channel closes, whoever started has exited, and a give-up came with an abort |
| `StartupEvents.NothingAfterClose` | pkg/startup/coordinator.go:213-262 | once the event channel is closed no goroutine can take a step, so nothing is ever sent on it |
| `StartupEvents.ReleasedOnce` | pkg/startup/runner.go:90-113 | a dependency channel is never closed twice |
| `StartupEvents.AllFailedTraceHasNoStart` | pkg/startup/coordinator.go:410-416 | a trace with the all-failed abort shows no start of any component |
| `Supervisor.Supervise` | app/rclaude/supervise.go:36-138 | on every trace of the pair exactly one status line per component, saying whether it started; the startup-failed verdict exactly when one never started; otherwise the daemon's or the PTY's ending |
| `Supervisor.CoordinatorGivesPairTrace` | app/rclaude/supervise.go:49-53 | every run of the daemon/PTY coordinator delivers such a trace |
| `Supervisor.TracksNext` | app/rclaude/supervise.go:55-89 | after each event of a well-formed trace the fields mean what the trace so far says: per component the lines printed, started and failed, whether the daemon died, and the last PTY exit |
| `Supervisor.TracksFinish` | app/rclaude/supervise.go:100-138 | after the end each of the two components has exactly one line, saying whether its start was seen, and is failed exactly when it was not |
| `Paths.NormalizeSpellsKey` | pkg/fstree/fstree.go:261-274 | the normalised string spells exactly the canonical key of the path |
| `Paths.NormalizeIdempotent` | pkg/contentcache/cache.go:254-270 | normalising twice is normalising once, with the same key |
| `Paths.CleaningLaws` | pkg/fstree/fstree.go:261-274 | component by component, with either separator: a plain name is a child, an empty one or "." stays, ".." goes to the parent, stays at the top of an absolute path, and is kept otherwise; these laws fix the key of every path |
| `Paths.JoinInjective` | pkg/fstree/fstree.go:285-290 | different keys spell different strings |
| `Paths.SafeCleanAgrees` | pkg/safepath/safepath.go:43-79 | the daemon's Clean refuses exactly the empty path and paths that escape the root, and otherwise yields the same normal form as the tree and the cache |
| `Paths.MatchesPrefixIsAncestor` | pkg/contentcache/cache.go:246-252 | the textual prefix test is the ancestor test on keys, both ways |
| `Paths.SplitParentIsParent` | pkg/fstree/fstree.go:276-283 | splitting at the last slash drops exactly the last segment |
| `Paths.JoinPathIsChild` | pkg/fstree/fstree.go:285-290 | joining a parent and a name spells the child's key |
| `FileTree.Tree.Insert` | pkg/fstree/fstree.go:51-66 | keeps the tree's shape; the plain map changes as `Inserted` says |
| `FileTree.Tree.InsertLocked` | pkg/fstree/fstree.go:152-174 | keeps the shape through new nodes, file/directory flips and missing ancestors |
| `FileTree.Tree.PruneChildren` | pkg/fstree/fstree.go:176-182 | removes exactly the strict descendants |
| `FileTree.Tree.EnsureAncestors` | pkg/fstree/fstree.go:197-240 | exactly the missing or file-typed ancestors become placeholder directories |
| `FileTree.Tree.Delete` | pkg/fstree/fstree.go:68-78 | removes exactly the node and its descendants, never the root |
| `FileTree.Tree.DeleteLocked` | pkg/fstree/fstree.go:242-257 | recursive removal terminates and leaves everything else unchanged |
| `FileTree.Tree.Lookup` | pkg/fstree/fstree.go:80-91 | the entry of the plain map at the path's key |
| `FileTree.Tree.List` | pkg/fstree/fstree.go:93-109 | exactly the nodes whose parent is the path, each once; only for directories |
| `FileTree.Tree.Apply` | pkg/fstree/fstree.go:113-135 | each kind of change on the plain map, with its error |
| `FileTree.InsertedMeaning` | pkg/fstree/fstree.go:152-240 | path by path, an insert touches only the node, its missing or file-typed ancestors, and what a replaced directory contained |
| `FileTree.ShapeDetermined` | pkg/fstree/fstree.go:152-257 | a well-shaped index is determined by the plain map it represents |
| `FileTree.ShapeIsPrefixClosed` | pkg/fstree/fstree.go:197-240 | every ancestor of a node is a directory node |
| `ContentCache.Cache.Get` | pkg/contentcache/cache.go:58-92 | hit exactly on an entry with the queried signature; a mismatch drops it; a hit becomes most recent |
| `ContentCache.Cache.Put` | pkg/contentcache/cache.go:94-134 | stored exactly when it fits the budget; the new entry is kept in front; used stays the sum of lengths within the budget |
| `ContentCache.PutMeaning` | pkg/contentcache/cache.go:94-134 | a Put takes out the old entry of its key; if the content is within the budget the new entry comes first and as many of the others follow, most recent first, as fit, otherwise nothing else changes |
| `ContentCache.StepKeepsExactly` | pkg/contentcache/cache.go:58-184 | after any other operation exactly the entries it does not spoil are stored |
| `ContentCache.Cache.RemoveElement` | pkg/contentcache/cache.go:210-234 | used drops by exactly the entry's length, so the clamp at zero never fires |
| `ContentCache.Cache.EvictLocked` | pkg/contentcache/cache.go:198-208 | evicts from the back until the rest fits |
| `ContentCache.Cache.InvalidatePrefix` | pkg/contentcache/cache.go:152-168 | drops exactly the entries at or below the path |
| `ContentCache.FitLongest` | pkg/contentcache/cache.go:198-208 | what eviction keeps is the longest prefix of the recency order that fits |
| `ContentCache.FitKeepsNewest` | pkg/contentcache/cache.go:94-134 | an entry that fits on its own survives its own Put |
| `ContentCache.RunBounded` | pkg/contentcache/cache.go:58-184 | after every history the keys are distinct and the total is within the budget |
| `ContentCache.RunByRecency` | pkg/contentcache/cache.go:58-134 | after every history the list is in the order of last use, so eviction drops the least recently used |
| `ContentCache.HitJustified` | pkg/contentcache/cache.go:58-92 | every hit returns the bytes of a Put at that path with that signature which nothing later spoiled |
| `ContentCache.EntriesJustified` | pkg/contentcache/cache.go:58-184 | every stored entry is justified by the history in that sense |
| `ContentCache.IdealExact` | pkg/contentcache/cache.go:58-184 | an unbounded cache replaying the calls holds exactly the justified entries |
| `ContentCache.BoundedWithinIdeal` | pkg/contentcache/cache.go:94-134 | the bounded cache is always part of the unbounded one |
| `Daemon.PlaceIsKey` | pkg/syncer/handle.go:186-191 | the daemon resolves a request path to the key the server uses for it, never outside the workspace |
| `Daemon.SliceMeaning` | pkg/syncer/handle.go:193-210 | a range read returns nothing at or past the end, and otherwise the bytes from the offset on, as many as asked for or as there are |
| `Daemon.ReadMeaning` | pkg/syncer/handle.go:74-109 | a read is answered exactly for a file inside the workspace, with that range or, when the limit bites, the first bytes of it |
| `Daemon.PerformSucceedsIff` | pkg/syncer/handle_write.go:119-266 | exactly when each request succeeds, in terms of what stands at its paths |
| `Daemon.PerformMeaning` | pkg/syncer/handle_write.go:119-284 | what each successful request leaves at every path and every byte, and that nothing else changed |
| `Daemon.PerformReports` | pkg/syncer/handle_write.go:119-266 | the metadata in the response is that of what then stands at the target |
| `Daemon.PerformKeepsTree` | pkg/syncer/handle_write.go:119-266 | every successful write, mkdir, delete, rename and truncate leaves the workspace a tree |
| `Daemon.WriteAtMeaning` | pkg/syncer/handle_write.go:277-284 | a write puts its bytes at its offset, zero-fills a gap and touches nothing else |
| `Daemon.MovedKeepsTree` | pkg/syncer/handle_write.go:211-235 | a rename the system allows leaves a tree |
| `CoherentReads.StepKeeps` | pkg/session/session.go:254-316 | every read, successful or failed request, announced edit and tree replacement keeps each cached entry equal to the daemon's file |
| `CoherentReads.RequestCovered` | pkg/fusefs/view.go:144-251 | every file a successful request creates or alters is covered by the invalidation that follows it |
| `CoherentReads.ChangesLeave` | pkg/session/session.go:412-445 | handled change messages only remove entries, among them all they tell about |
| `CoherentReads.CachedReadsAgree` | pkg/fusefs/view.go:108-142 | over every run, a readChunk that succeeds on a file the daemon holds, and on which the read limit does not bite, returns exactly the bytes of that file in the range asked for, as the daemon's own range read does, for every offset and size |
| `CoherentReads.PiecesMakeTheFile` | pkg/fusefs/view.go:108-142 | begun in any reachable state, consecutive reads of any positive size all succeed and join to the daemon's file |
| `CoherentReads.SecondReadNeedsNoDaemon` | pkg/fusefs/view.go:108-142 | after a read of a file the cache takes, in any reachable state, reads of any range of it are served with the bytes then held whatever the daemon holds since |
| `CoherentReads.SlicesAgree` | pkg/fusefs/view.go:362-384 | the server's slicing and the daemon's both return the range asked for |
| `CoherentReads.LimitCommutes` | pkg/syncer/handle.go:97-100 | cutting to the limit and slicing commute exactly when the limit does not bite |
| `CoherentReads.LimitedReadsAgreeIff` | pkg/fusefs/view.go:108-142 | with a read limit, reads agree at every offset and size if and only if the file is not cacheable or the limit does not bite |
| `CoherentReads.LimitedReadDiverges` | pkg/syncer/handle.go:97-100 | for every positive limit and cache, a bootstrap and one read after which the view returns nothing where the daemon returns a byte |
| `CoherentReads.AlwaysAgreesIff` | pkg/fusefs/view.go:108-142 | over all runs, reads of files the daemon holds agree with its range reads exactly for configurations without a read limit or without a cache |
| `CoherentReads.HonestlyAgreesIff` | pkg/fusefs/view.go:354-360 | over the runs in which the index has the right sizes, reads agree exactly for configurations without a read limit or whose cache takes no file the limit cuts |
| `CoherentReads.ReadYourWrites` | pkg/fusefs/view.go:144-162 | right after a successful write, reading that range succeeds and returns the bytes written, unless the read limit bites on the new file |
| `CoherentReads.RemovedIsGone` | pkg/fusefs/view.go:202-213 | after a successful removal the daemon lost exactly that path and reading it fails |
| `IndexSync.RenamedReadsIff` | pkg/fusefs/view.go:215-232 | after a rename of a file or directory, from an index in step with the workspace, a file now at or below the new path reads as it did at its old place exactly when it is the new path itself; below it nothing can be read |
| `IndexSync.OldPathsGone` | pkg/session/session.go:274-288 | after a rename nothing is left at or below the old path at the daemon, and reading there fails |
| `IndexSync.CallInSyncIff` | pkg/fusefs/view.go:144-251 | a successful call leaves the index in step with the workspace exactly when it is not the rename of a directory with something below it |
| `IndexSync.RunInSyncIff` | pkg/session/session.go:254-288 | starting in step, the index stays in step through all of a run of calls if and only if no call renames a directory with something below it |
| `CoherentReads.TruncatedReads` | pkg/fusefs/view.go:234-251 | after a successful truncate within the read limit the file reads as its first bytes, filled up with zeros |
| `SessionFiles.Session.ReadFileChunk` | pkg/fusefs/view.go:108-142 | the readChunk of the model: result and cache effect as specified, index untouched |
| `SessionFiles.Session.Call` | pkg/fusefs/view.go:144-283 | the mutating view calls: the daemon's effect, then the session's bookkeeping, or no change on an error |
| `SessionFiles.Session.ApplyWriteResult` | pkg/session/session.go:254-262 | index entry and invalidation of a write result |
| `SessionFiles.Session.ApplyDelete` | pkg/session/session.go:264-272 | removal and invalidation, recursive if the index knew a directory |
| `SessionFiles.Session.ApplyRename` | pkg/session/session.go:274-288 | removal of the old path, entry of the new one, both invalidations |
| `SessionFiles.Session.ApplyChange` | pkg/session/session.go:412-445 | each change message's effect, and which messages are refused |
| `ChangeMessages.DeleteMeaning` | pkg/session/session.go:426-431 | a deletion takes exactly what is at and below its path out of the index |
| `ChangeMessages.DeleteDrops` | pkg/session/session.go:426-431 | and exactly the cached content at its path, and below it when the index knew a directory there |
| `ChangeMessages.DeletedIsUnreadable` | pkg/fusefs/view.go:108-142 | after it nothing at or below the path can be read, whatever was cached |
| `ChangeMessages.InsertMeaning` | pkg/session/session.go:412-425 | a creation or modification enters its metadata at its path; what else changes is listed path by path |
| `ChangeMessages.InsertDrops` | pkg/session/session.go:412-425 | and drops exactly the cached content at its path, and below it for a directory |
| `ChangeMessages.RenameMeaning` | pkg/session/session.go:432-445 | a rename takes everything at and below the old path out and enters the node at the new one; what else changes is listed path by path |
| `ChangeMessages.RenameDrops` | pkg/session/session.go:432-445 | and drops exactly the cached contents the two paths cover |
| `ChangeMessages.RefusedMeaning` | pkg/session/session.go:412-445 | a refused message touches no cached content and enters nothing |
| `ChangeMessages.EditInSync` | pkg/session/session.go:362-375 | an edit of the workspace whose messages name every difference leaves the index in step with it |
| `ChangeMessages.EditedReadable` | pkg/session/session.go:362-375 | and then a path is readable through the view exactly when the workspace has a file there |
| `SessionFiles.Session.ReceiveChanges` | pkg/session/session.go:362-375 | messages in order up to the first refused one |
| `SessionFiles.Session.ReplaceTree` | pkg/session/session.go:398-410 | a fresh index from the list; cached contents stay |
| `SessionFiles.Session.Bootstrap` | pkg/session/session.go:124-143 | a fresh index and an empty cache |
| `PtySlots.ClaimMeaning` | pkg/session/manager.go:135-153 | a claim gets an id that was never issued to the user before, and every slot stays held under an issued id |
| `PtySlots.ClaimAndFree` | pkg/session/manager.go:155-170 | freeing with the claimed id gives the table back as it was before the claim; no other id frees it, and no id frees it twice |
| `PtySlots.SessionIdInjective` | pkg/session/manager.go:263-266 | no id is issued twice to a user |
| `PtySlots.OneLiveHostPerUser` | pkg/ptyservice/service.go:114-147 | in every interleaving of attach handlers, no two hosts of one user are alive together |
| `PtySlots.SlotHeldIff` | pkg/session/manager.go:135-170 | a slot is taken exactly while one of the user's handlers holds it |
| `PtySlots.StaleIdFreesNothing` | pkg/session/manager.go:155-170 | the id of a finished handler frees nothing, whoever holds the slot |
| `PtySlots.FreeOnlyByHolder` | pkg/session/manager.go:155-170 | an id the table accepts belongs to the handler holding the slot |
| `PtyAttach.PumpStdout` | pkg/ptyservice/service.go:488-505 | the chunks passed on concatenate to the host's whole output, each within the frame size, followed by the error that ended it |
| `PtyAttach.AttachRuntime.HandleStdout` | pkg/ptyservice/service.go:627-658 | output is forwarded while the stream is open; a read error stops the handler only after the host's Wait |
| `PtyAttach.AttachRuntime.HandleClientFrame` | pkg/ptyservice/service.go:366-411 | which frames are refused and as what, which one ends the listening, and what each writes to the host |
| `PtyAttach.AttachRuntime.HandleClient` | pkg/ptyservice/service.go:338-364 | the handler stops exactly on an oversize input, an input the limiter or the host refused, a failed resize, or a frame that is neither input, size nor detach, with the error kind of each and only after the host's Wait; a detach shuts the host down and is no fault; a lost client closes the stream; exactly the accepted input is written to the host |
| `PtyAttach.AttachRuntime.HandleExit` | pkg/ptyservice/service.go:660-667 | records the exit; a Wait error ends the trace with Error |
| `PtyAttach.RunAttached` | pkg/ptyservice/service.go:282-336 | for every schedule of the select: the trace fits the grammar and carries a prefix of the host's output, all of it with the exit information of Wait when it ends in Exited; the loop returns once the output, its closed channel and the exit were taken; without a fault it ends in Exited; and the host was given exactly the accepted input, in order, up to the detach or loss of the client |
| `PtyAttach.Attach` | pkg/ptyservice/service.go:114-147 | every trace is a prefix of Error or Attached Stdout* (Exited or Error); Attached exactly when every check passed, and otherwise the error of the first check that failed; the slot is held under the claimed id and freed only after Wait; the handler returns when it was turned away, lost its first frame, or its host came to an end; and when it returns, with no failed send or lost client the trace is complete, and with no fault either it ends in Exited |
| `PtyAttach.TraceIsPrefix` | api/proto/remotefs/v1/pty.proto:8-11 | the traces allowed are exactly the prefixes of complete traces |
| `PtyShared.ActIsStep` | pkg/ptyservice/service.go:114-147 | every effect of an attach on the table or its host is a step the slot system allows, with the same result |
| `PtyShared.AttachesShareOneHost` | pkg/ptyservice/service.go:114-147 | however any number of attaches interleave, at most one host of a user is between its spawn and the return of its Wait |
| `PtyShared.AttachesLeaveNoSlot` | pkg/session/manager.go:135-170 | when all attaches have returned no slot is taken |
| `PtyClient.RecvLoop` | pkg/ptyclient/client.go:254-295 | writes every output frame in order and ends at the first terminal frame; refuses exactly the other traces |
| `PtyClient.Receive` | pkg/ptyclient/client.go:68-121 | ends without an error of its own if and only if the frames hold a session, and reports exactly that session |
| `PtyClient.ReceiveComplete` | pkg/ptyclient/client.go:229-295 | every complete server trace is accepted; bytes written, code, signal and server error are those of the trace |
| `PtyClient.Session` | pkg/ptyclient/client.go:254-295 | server and client together over a stream nothing cuts: once the host came to its end the client ends with the server's error, or has written the host's whole output and reports the code and signal of Wait; without a fault it is the latter |
| `PendingRequests.StepKeeps` | pkg/session/session.go:470-517 | every step keeps exactly one owner for each open channel |
| `PendingRequests.NeverPanics` | pkg/session/session.go:488-517 | in no interleaving is a closed channel sent on or closed again, and no send blocks |
| `PendingRequests.SentAndClosedOnce` | pkg/session/session.go:501-517 | each channel is sent on and closed at most once and holds only a response with its own id |
| `PendingRequests.ClosedByRemover` | pkg/session/session.go:576-599 | whoever closes a channel is the one that removed it from the map and held it ever since |
| `PendingRequests.OwnResponse` | pkg/session/session.go:559-574 | a call returns only a response with its own id |
| `PendingAnswers.SettledIff` | pkg/session/session.go:470-574 | in every run a call settles on a response or on failure exactly by the step that takes that response from its channel, or by one of four: begun on a closed session, refused its id, given up, or channel found closed and empty; and it keeps it |
| `PendingAnswers.FailureHasCause` | pkg/session/session.go:470-574 | a call that returned an error had one of those four causes |
| `PendingAnswers.ReceivedIsReturned` | pkg/session/session.go:559-574 | what a call receives is what it returns |
| `PendingAnswers.AnsweredReturnsAnswer` | pkg/session/session.go:501-574 | a call whose channel was sent a response while it waited, and that does not give up, returns that response; it can take it at once |
| `PendingAnswers.ResponseIsRouted` | pkg/session/session.go:501-517 | a response whose id is pending is the one next sent on the channel listed under that id, and no other entry changes |
| `PendingAnswers.ListedWasRegistered` | pkg/session/session.go:470-486 | that channel is the one a call with the id registered |
| `PendingAnswers.HeldWasSent` | pkg/session/session.go:501-517 | a channel holds only what was sent on it |
| `PendingAnswers.SentWasPending` | pkg/session/session.go:501-517 | what is sent answers an id that was pending when it arrived |
| `PendingAnswers.CloseClosesPending` | pkg/session/session.go:576-599 | closing the session closes every channel that was pending, each once |
| `PendingRequests.NothingLeftOver` | pkg/session/session.go:169-189 | once all calls returned nothing is pending, and when resolver and closer are done every channel was closed exactly once |
| `PendingRequests.ClosedUnderneathMeansSessionClosed` | pkg/session/session.go:559-574 | while no two unreturned calls share an id, a waiting call finds its channel closed and empty only if the session is closed |
| `PendingRequests.AlarmFreeIff` | pkg/session/session.go:470-499 | an assignment of ids to calls is free of such false alarms in every run if and only if it repeats no id |
| `PendingRequests.GeneratedIdsAlarmFree` | pkg/session/session.go:519-542 | the ids the session generates are such an assignment |
| `PendingRequests.RequestIdInjective` | pkg/session/session.go:465-468 | generated ids are distinct |
| `PendingRequests.SharedIdClosedUnderneath` | pkg/session/session.go:488-499 | for any two calls with one id there is a run in which the one's drop closes the other's channel while it waits and the session is open |
| `SessionTable.Manager.Register` | pkg/session/manager.go:73-88 | prunes, stores the session and returns the one it replaced |
| `SessionTable.Manager.Get` | pkg/session/manager.go:94-106 | the session in the table unless expired, which is then removed |
| `SessionTable.Manager.PruneExpiredLocked` | pkg/session/manager.go:255-261 | removes exactly the expired sessions |
| `SessionTable.PruneMeaning` | pkg/session/manager.go:73-88 | a registration or a prune leaves no expired session in the table and hides nobody's visible session, except that the user who registers then sees the new one |
| `SessionTable.EvictMeaning` | pkg/session/manager.go:110-117 | a lookup that found an expired session takes exactly that one out, and nothing anybody can see |
| `SessionTable.ReplacedIsClosed` | pkg/session/service.go:49-62 | the session that was visible when a newer one registered is closed as replaced by the time the newer one is served, and stays so |
| `SessionTable.DisconnectMeaning` | pkg/session/manager.go:199-218 | in every run a disconnect hides the session that went exactly when it was visible and is not kept offline, and changes nothing any other user sees |
| `SessionTable.OfflineEnds` | pkg/session/manager.go:255-261 | a session that is still visible after its disconnect is within the TTL of it |
| `SessionTable.NewestSessionWins` | pkg/session/manager.go:73-117 | in every interleaving exactly the user's newest session is visible, and exactly while connected or offline for less than the TTL, unless removed |
| `SessionTable.OnlyItselfOrNewer` | pkg/session/manager.go:172-218 | a session leaves the table only by its own disconnect or removal, a newer registration, or expiry |
| `SessionTable.OlderSessionsHarmless` | pkg/session/service.go:36-62 | no step of an older session changes what is visible |
| `SessionTable.NeverAnswersExpired` | pkg/session/manager.go:94-117 | a lookup never answers with a session at or past its disconnect time plus the TTL |
| `SessionTable.RetainNeverRefused` | pkg/session/session.go:191-206 | the session to be kept offline is never one closed as replaced |
| `PathLocker.LockKeys` | pkg/syncer/locker.go:54-69 | the slash-normalised keys, each once, in ascending order |
| `PathLocker.MutualExclusion` | pkg/syncer/locker.go:24-52 | at most one thread holds a key |
| `PathLocker.InTableIffInUse` | pkg/syncer/locker.go:24-52 | a key is in the table exactly while some thread holds or awaits it, and its count is their number |
| `PathLocker.NoDeadlock` | pkg/syncer/locker.go:54-81 | in every reachable state with an unfinished thread some thread can step |
| `PathLocker.StepsRunOut` | pkg/syncer/locker.go:24-81 | every step brings its thread closer to its end and leaves the others in place |
| `PathLocker.EndsEmpty` | pkg/syncer/locker.go:24-52 | when all threads are done the table is empty |
| `RateLimiter.Limiter.RefillLocked` | pkg/ratelimit/limiter.go:123-140 | tokens grow with elapsed time up to the burst |
| `RateLimiter.Limiter.Round` | pkg/ratelimit/limiter.go:81-97 | one round takes what there is, up to what is wanted, and says how long to sleep |
| `RateLimiter.Limiter.Wait` | pkg/ratelimit/limiter.go:71-108 | a lone waiter's rounds are exactly one at its start and then one after each pause, however late it wakes; they happen to the bucket in order, take exactly its n units, and are at most 1 + ceil(n / burst) |
| `RateLimiter.LoneMeans` | pkg/ratelimit/limiter.go:71-108 | rounds spaced like that come in order of time and take exactly what the waiter wanted |
| `RateLimiter.DurationSuffices` | pkg/ratelimit/limiter.go:163-172 | the sleep is long enough for the units needed to flow in |
| `RateLimiter.PauseTight` | pkg/ratelimit/limiter.go:81-108 | and never a nanosecond longer than what the waiter lacks of the next burst, or one unit, takes to flow in |
| `RateLimiter.TokensBounded` | pkg/ratelimit/limiter.go:71-140 | tokens stay within [0, burst] in every interleaving |
| `RateLimiter.WindowBound` | pkg/ratelimit/limiter.go:71-140 | for any interleaving of waiters, units granted in any time window are at most burst + rate times its length |

## Left out

- gRPC, TLS, authentication, configuration, logging, audit records and the SQL stores: library plumbing.
- FUSE node wrappers, errno mapping and classification of error texts, inode numbers: the model's calls succeed or fail without naming the errno.
- Symbolic links, the sensitive-path filter, file modes and the second containment check of `safepath.Join`: they rest on live file-system calls or repeat what `Clean` has ensured.
- Windows volumes; paths are forward-slash paths with the backslash conversion the code does.
- Prefetch, reads that race with changes, requests that time out after the daemon acted, events dropped by the self-write filter, and offline reads: coherence is stated for completed steps on a connected session.
- The daemon's write handlers are modelled by their effect on the workspace map when they succeed; their locking is `PathLocker`, their order of system calls and partial failures are not modelled.
- The append mode of a write request, which the view never sends.
- Nil receivers and nil arguments where the caller cannot pass them; 64-bit integer widths.
- The event channel of the startup coordinator is taken as always drained, and the bus as delivering at once; `abort` sends its event and cancels in two steps, and a second caller of `abort` does not wait for the first.
- The PTY client's sending side and its `Err` field after an exit with code 0, which depends on a race between its pumps; terminal handling, environment and binary resolution, window sizes.
- Cancellation of a limiter's wait; float64 rounding (real arithmetic instead); the limiter's zero-value clock, which `New` never leaves.
- `Snapshot` and `UserIDs` listings and the manager's option getters: they would only add easy members.
- SessionTable.Manager.Get: in the object it is one uninterrupted call; the interleaved lookup is the state machine's Look, Check and Evict.
- PathLocker.NoDeadlock: assumes that work done under the locks ends, and that each thread makes one call and takes no other lock.
