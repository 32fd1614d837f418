# Verified model of the IoT platform core

This project models the parts of the platform whose correctness is hard to see from
the code: the device shadow (merge, delta, metadata, history), the job engine (task
queue, runner loop, rollout scheduler, task rows), and four smaller protocols and
parsers (presence, direct-method rendezvous, topic filters, the SQL parser).

`dafny verify dfyconfig.toml` checks the whole project.

## How the model is built

* **Shadow.** A document is a JSON tree; an array counts as a scalar, and a time stamp is
  the object `{"timestamp": n}`, so metadata is an ordinary tree and the type assertions of
  the code are proof obligations. A *leaf* is a path of keys that ends at a non-null
  scalar. `ShadowMerge` and `ShadowDelta` define what merge and delta compute and prove
  their laws on leaves. `GoMaps` models Go maps as mutable objects with a ghost shape, and
  `ShadowMergeHeap` proves the in-place code, for every iteration order, against
  `ShadowMerge`. `ShadowHistory` folds requests over a row, `ShadowService` is the table
  with its transactions and notices.
* **Jobs.** `JobQueue` is the slice heap under the sift-up and sift-down that
  `container/heap` publishes. `JobRunner` is the runner loop with a ghost ledger of every
  task that was added. `JobRollout` is the pass of the scheduler under a clock that never
  runs backwards. `JobStatus` is the task table with all its writers.
* **Protocols.** `Presence`, `MethodRendezvous` (a step system over any number of
  invocations and responders), `Topics`, and `SqlGrammar` with `SqlRoundTrip` and
  `SqlParser`: an automaton over tokens, what rendered statements parse back to, and the
  parser itself.

Code that updates things in place is a class or a method with loops, proved against
functions; the laws are lemmas about these functions. The database is a map with atomic
transactions; its answers, the clock, and the order in which events arrive are parameters
or arbitrary.

Where the code and its comments part, the model follows the code. These findings are
stated as theorems, each with its exact condition:

* an object without leaves in the desired state may never leave the delta
  (`ShadowDelta.LaterDeltas`);
* `completed_at` is never set for a finished task (`JobStatus.CompletionOnlyWhenCut`);
* the timeout check can overwrite a result (`JobStatus.ResultSticks`), but only for rows
  that another program has put in progress (`JobStatus.NeverInProgress`);
* the broker cache and the connection row can disagree after a leading disconnect
  (`Presence.CacheAgreesExactly`);
* a client token that is in use can leave a responder waiting for good
  (`MethodRendezvous.FreshKeyIsExact`) or close a channel twice
  (`MethodRendezvous.PanicIsExact`);
* the two topic matchers part on filters with "#" inside (`Topics.MatchersDifferExactly`);
* a quoted literal in a WHERE clause that has a letter is taken for a column
  (`SqlRoundTrip.ReadAsMeant`).

The creation time of a row is not copied to the task made of it (job/entity.go:274-300),
so the queue of the running service compares statuses only; the laws of the queue hold
for any times.

## Model

| member | source | states |
|---|---|---|
| ShadowMerge.CleanLeaf | shadow/merge.go:125-145 | removing nulls and empty objects keeps every leaf and adds none |
| ShadowMerge.CleanIsTidy | shadow/merge.go:125-145 | what is stored for a patch value has no null and no object without fields inside |
| ShadowMerge.MergeLeaf | shadow/merge.go:52-102 | after a merge, a path the patch touches (by a value, a delete or a replacement above it) holds what the patch says; every other path keeps its leaf |
| ShadowMerge.MergePatchLeaf | shadow/merge.go:37-103 | MergePatch of RFC 7396, section 2, obeys the same law on leaves |
| ShadowMerge.MergeAgreesWithMergePatch | shadow/merge.go:37-145 | the merged state has exactly the leaves that MergePatch of RFC 7396 gives |
| ShadowMerge.MirrorsExactly | shadow/merge.go:37-123 | metadata in step with a state carries a stamp at a path exactly when the path is a leaf |
| ShadowMerge.MergeMirrors | shadow/merge.go:37-103 | a merge keeps metadata in step with the state, whatever the patch |
| ShadowMerge.MirrorsFits | shadow/merge.go:62-69 | with metadata in step, the type assertion on sub-metadata succeeds for every patch |
| ShadowMerge.GenMetaStamps | shadow/merge.go:105-123 | generated metadata stamps exactly the leaves of the value |
| ShadowMerge.MergeStamp | shadow/merge.go:52-102 | a leaf the patch writes is stamped now, a path it otherwise touches loses its stamp, all other stamps stay |
| ShadowMerge.UpdatedStamps | shadow/merge.go:37-103 | the metadata returned for one update stamps exactly the leaves of its patch |
| ShadowMerge.ValueAtLeaf | shadow/merge.go:247-276 | reading by path yields a scalar exactly where the state has a leaf |
| ShadowMerge.ValueByPath | shadow/merge.go:255-276 | the loop returns the value at the path, or nothing for a nil map or a missing step |
| GoMaps.DeepCopy | shadow/service.go:472-492 | the copy has the same value, shares no map with the source, and leaves the source unchanged |
| ShadowMergeHeap.RemoveNilFields | shadow/merge.go:125-145 | cleaning a tree in place leaves exactly the cleaned value, on maps of the tree itself |
| ShadowMergeHeap.GenMetaInto | shadow/merge.go:105-123 | fills the given map with stamps for every leaf, on fresh maps, and leaves the state alone |
| ShadowMergeHeap.StoreLeaf | shadow/merge.go:84-88 | storing a scalar changes one field of each of the three trees and keeps them apart |
| ShadowMergeHeap.StoreMap | shadow/merge.go:77-83 | storing an object hands its maps to the state and gives both metadata trees maps of their own |
| ShadowMergeHeap.MergeSub | shadow/merge.go:60-76 | object meets object: the recursive merge in place, with metadata dropped when nothing is left |
| ShadowMergeHeap.DoMergeState | shadow/merge.go:37-103 | for every iteration order the in-place merge produces the merged state and both metadata trees, all without a shared map |
| ShadowMergeHeap.MergeState | shadow/merge.go:26-35 | the caller's patch stays as it was and shares no map with the new state and metadata; on a nil target the update is lost |
| ShadowDelta.DeltaDiff | shadow/merge.go:187-245 | for every iteration order, one field's delta and its metadata |
| ShadowDelta.DeltaState | shadow/merge.go:164-185 | the delta of two states, with the nil cases |
| ShadowDelta.MirrorsStateFits | shadow/merge.go:210-213 | metadata in step with the desired state makes the type assertion of the delta succeed |
| ShadowDelta.DeltaIsExact | shadow/merge.go:166-245 | the leaves of the delta are the desired leaves that reported does not hold with that value |
| ShadowDelta.DeltaMetaIsExact | shadow/merge.go:187-245 | the delta's metadata stamps exactly the delta's leaves, with the desired stamps |
| ShadowDelta.Convergence | shadow/merge.go:166-245 | once a device merges the delta into any reported state, the new delta has no leaf |
| ShadowDelta.DeltaAfterMerge | shadow/merge.go:126-245 | after merging the delta the new delta is empty if and only if every desired object without leaves meets an object in reported |
| ShadowDelta.FullDesiredConverges | shadow/merge.go:126-245 | when every nested desired object holds a leaf, the new delta is empty |
| ShadowDelta.LaterDeltas | shadow/merge.go:126-245 | the same after any number of rounds: an object that does not settle in the first round keeps every later delta non-empty |
| ShadowDelta.EmptyDesiredObjectIsStuck | shadow/merge.go:126-145 | a concrete desired state whose delta is the same after any number of rounds |
| ShadowHistory.StampsAreLeaves | shadow/service.go:287-372 | in every shadow that any sequence of requests produces, stamps and leaves coincide |
| ShadowHistory.MetadataAlwaysFits | shadow/merge.go:62-69 | in every reachable shadow no patch can make the type assertion fail |
| ShadowHistory.VersionCountsUpdates | shadow/service.go:341-342 | the version is 1 plus the number of accepted updates |
| ShadowHistory.UnversionedAllCount | shadow/service.go:302-309 | requests without an expected version are all accepted |
| ShadowHistory.CurrentVersionIsAccepted | shadow/service.go:302-309 | a request that expects the version left by those before it is accepted |
| ShadowHistory.NoLostUpdate | shadow/service.go:302-309 | of the requests that expect one version, at most one is accepted, whatever lies between them |
| ShadowHistory.LastTagWins | shadow/merge.go:282-294 | after any run a tag has the value of the last accepted request that names it, and is gone if that was null |
| ShadowHistory.StepOnPath | shadow/service.go:326-347 | a request moves value and stamp of the paths it writes; other paths, the other half, and everything under a stale version stay |
| ShadowHistory.LastWriterWins | shadow/service.go:326-347 | after any run, a path has value and time stamp of the last accepted patch that touched it, and is gone if that touch was a delete or a replacement |
| ShadowHistory.UnwrittenIsAbsent | shadow/service.go:326-347 | a path that no accepted patch touched has neither value nor stamp |
| ShadowService.MergeStored | shadow/service.go:311-336 | the merge of a stored row, with the previous state copied before and equal to the state before the update |
| ShadowService.MergeTags | shadow/merge.go:282-294 | tags are merged; a null deletes its tag |
| ShadowService.NoticesTellTheUpdate | shadow/service.go:313-324 | every notice of an update: previous and current are one version apart and equal but for the updated half, previous is the state before the in-place merge, and the delta tells exactly the desired leaves, with their stamps, that reported lacks |
| ShadowService.NoticesAreComplete | shadow/service.go:368-407 | one or two notices: the documents last, exactly once; a delta first if and only if it is not empty, and so whenever a desired leaf is not reported with its value |
| ShadowService.ShadowTable.Create | shadow/shadow_repo.go:32-56 | a new shadow row in version 1, or a refusal that changes nothing |
| ShadowService.ShadowTable.Update | shadow/shadow_repo.go:58-83 | compare-and-set on a positive expected version |
| ShadowService.ShadowTable.SetState | shadow/service.go:287-372 | every outcome of an update: the errors change nothing, and the version error comes exactly for a stale positive version; success replaces one half, its metadata and the version, keeps all rows in step, and sends the delta (unless empty) and the previous and current documents |
| ShadowService.ShadowTable.Notify | shadow/service.go:374-407 | the notices of one update, the delta before the documents; NoticesAreComplete says which there are |
| ShadowService.ShadowTable.SetTag | shadow/service.go:433-458 | tags change under the version check and nothing else of the row but its version |
| JobQueue.UpStep | job/queue.go:22-39 | one exchange of sift-up moves the only possible disorder one level up |
| JobQueue.DownStep | job/queue.go:22-39 | one exchange of sift-down moves the only possible disorder to the smaller child |
| JobQueue.TaskQueue.Push | job/queue.go:66-69 | adds one task and keeps heap order and positions |
| JobQueue.TaskQueue.Pop | job/queue.go:71-74 | removes a task that none in the queue precedes, and only that one |
| JobQueue.TaskQueue.Peek | job/queue.go:76-80 | pop and push back: a first task, and the same tasks remain |
| JobQueue.TaskQueue.Remove | job/queue.go:86-89 | removes the task at a position, and only that one |
| JobQueue.TaskQueue.RemoveById | job/queue.go:91-98 | removes one task with the id and nothing else, or finds that there is none |
| JobQueue.RootIsFirstOfAll | job/queue.go:22-28 | no task of a heap precedes its root |
| JobQueue.PopsAreSorted | job/queue.go:71-74 | successive pops come out in order |
| JobQueue.PopsByStatusThenAge | job/queue.go:5-28 | what sorted means: tasks in progress come out before sent ones, these before queued ones, all before the others, and older ones first among equals |
| JobRunner.Runner.PutTasks | job/runner.go:102-108 | the add step: direct methods and shadow updates are queued, custom operations dropped; the ledger still balances, so no task is lost or doubled |
| JobRunner.Runner.Connected | job/runner.go:280-291 | a connected thing's parked tasks, all of them, go back to the queue; the ledger still balances |
| JobRunner.Runner.Delete | job/runner.go:245-279 | by job: none of the job's tasks stays queued or parked and every other task stays; by ids: only queued tasks go; the ledger still balances |
| JobRunner.Runner.DeleteIdsFromBuckets | job/runner.go:250-261 | the loop over the parked tasks changes nothing: the inner break only leaves the id loop |
| JobRunner.Runner.Dispatch | job/runner.go:304-353 | one tick: at most ten tasks leave in queue order. A task is given up exactly when its job is gone or ending, parked under its thing exactly when it is a direct method and the thing was answered offline, pushed back only when the pool refused, and else submitted and reported SENT; a full pool ends the tick; the ledger still balances |
| JobRunner.Runner.Place | job/runner.go:308-352 | the fate of one popped task in the terms of the task and the answers: where it is afterwards, what was reported, and that nothing else moved |
| JobRunner.AccountsSpelled | job/runner.go:304-353 | what a log of dispatches says of queue, buckets, submitted tasks and SENT reports, task by task |
| JobRunner.AccountsOneMore | job/runner.go:305-353 | a log of dispatches accounts for every change of queue, parked tasks, reports and ledger |
| JobRunner.BalancedAfterDispatch | job/runner.go:304-353 | a tick loses and duplicates no task |
| JobRunner.BalancedAfterDelete | job/runner.go:262-278 | a delete loses exactly the deleted tasks |
| JobRunner.InExactlyOnePlace | job/runner.go:222-355 | what the balance that PutTasks, Connected, Delete and Dispatch preserve means for a task added once: it is in exactly one of queue, its thing's bucket, submitted, given up, deleted |
| JobRollout.MinuteWithinSince | job/center.go:515-523 | what a minute counts is within what the limit check counted |
| JobRollout.RecordKeepsRate | job/center.go:309-323 | a record taken at or after the check keeps the bound in every minute |
| JobRollout.PendingJob.NextRolloutCount | job/center.go:515-532 | the next batch is the largest one that the limit of the last minute and the pending tasks allow; after a minute of rest it is all pending tasks, or as many as the limit |
| JobRollout.SinceIsLastMinute | job/center.go:515-523 | what the limit check counts: the records of the last minute, each with its count |
| JobRollout.OngoingIsSubsequence | job/center.go:692-699 | filtering for ongoing tasks keeps exactly these, in order |
| JobRollout.Scheduler.ScheduleFilter | job/center.go:350-441 | before the start nothing; in time the status moves on and a finished job is removed; after the end each end behaviour, with its errors; a job is canceled only when late or when its start passes between two readings of the clock, and its tasks are read again only then |
| JobRollout.Scheduler.TimeoutFilter | job/center.go:472-497 | drops only tasks overdue at its end, keeps none overdue at its start, and writes each dropped one timed out |
| JobRollout.Scheduler.CheckTimeoutTask | job/center.go:499-513 | when a task counts as timed out |
| JobRollout.Scheduler.RollOut | job/center.go:304-323 | the largest allowed prefix of the pending tasks goes to the runner and is recorded at the time of the clock; a job that has rested for a minute goes on; order, rate and accounts hold |
| JobRollout.Scheduler.Visit | job/center.go:285-335 | one job of the pass: why it is removed, why it is kept, and that a job that is in time and within its limit is handed out |
| JobRollout.Scheduler.Pass | job/center.go:284-336 | the walk with deletions in mid-loop stays in range; survivors keep their order; exactly the job behind a removed one is skipped and unchanged; every other job is removed or kept for the stated reason, and those in time get their next batch; jobs outside the list are handed nothing, and the accounts of all jobs ever pending are kept |
| JobRollout.Scheduler.RemoveJob | job/center.go:232-253 | with distinct ids, the removal while ranging over the shifted array takes out that job, or its unsent tasks, and no other |
| JobRollout.Scheduler.UpdateTimeout | job/center.go:269-281 | a configuration message changes one job's timeout only |
| JobRollout.SurvivorsKeepOrder | job/center.go:284-336 | the jobs left are those not removed, in their order |
| JobRollout.RolloutIsFair | job/center.go:284-337 | after any run, for every job ever pending, finished ones too: all batches are accounted for and no minute exceeds the limit; and unless its tasks were read again, batches and remaining tasks are a subsequence of the original tasks, none twice |
| JobStatus.TerminalStaysTerminal | job/runner.go:183-220 | no sequence of writes turns a terminal row into one that is not |
| JobStatus.AllTerminalIsStable | job/center.go:570-579 | once all tasks of a job are terminal they stay so under all writers |
| JobStatus.TerminalRowIsFrozen | job/repo.go:151-165 | a terminal row changes only by a firing timeout check or deletion |
| JobStatus.TimeoutOverwritesResult | job/center.go:508-511 | from a row that another program set in progress, the guarded check overwrites a result, since it goes by its copy |
| JobStatus.TimeoutSticks | job/center.go:499-513 | a terminal row that the check overwrites stays timed out |
| JobStatus.NeverInProgress | job/center.go:499-513 | from an empty table, with tasks in memory made of their rows, no row is ever in progress, so the check never fires |
| JobStatus.ResultIsFinal | job/runner.go:183-220 | so in every run of the package itself the result of an open task is final |
| JobStatus.SentAndResultCommute | job/runner.go:349-351 | SENT and the result may arrive in either order within any run; the row is the result's if the task was open, else untouched |
| JobStatus.ResultSticks | job/runner.go:183-220 | in any run after the result of an open task, a row still there holds that result if and only if no timeout check for it fires; otherwise it is timed out |
| JobStatus.CompletionOnlyWhenCut | job/runner.go:205-207 | the completion time is set exactly for canceled and timed-out tasks, never for finished ones |
| JobStatus.FinishedWithoutTime | job/runner.go:205-207 | a run that ends with a succeeded task without a completion time |
| JobStatus.TaskTable.CheckTimeoutTask | job/center.go:499-513 | the check of a task in memory: when it fires, and that its write does not depend on the row's status |
| JobStatus.TaskTable.UpdateTaskStatus | job/runner.go:183-220 | a message is applied exactly when the row exists and is not terminal |
| JobStatus.TaskTable.CancelTasks | job/repo.go:151-165 | cancels the queued tasks of a job, or all open ones by force |
| JobStatus.TaskTable.CountTaskStatus | job/repo.go:238-249 | exactly the statuses that occur, each with its number of tasks |
| JobStatus.TaskTable.AllDone | job/center.go:570-579 | the check is true exactly when every task of the job is terminal |
| JobStatus.TaskTable.CheckFinishJob | job/center.go:563-627 | what a finish check does to the job in each status, with the empty status written for a canceled job |
| JobStatus.TaskTable.CancelJob | job/service.go:206-259 | when a job may be canceled; by force, all its tasks end terminal |
| JobStatus.TaskTable.CancelTask | job/service.go:305-348 | each guard of canceling one task; when done, that row is canceled with force flag, time and details, and every other column and row is unchanged; a refusal changes nothing |
| JobStatus.CancelSticks | job/service.go:305-342 | at the end of any run a canceled task that is still there has the cancel's status, flag, time and details, or is timed out if and only if a timeout check fired for it |
| JobStatus.JobCancelSticks | job/repo.go:151-165 | the cancel of a job reaches its queued tasks, by force its other open ones, and these too stay canceled |
| JobStatus.TaskTable.DeleteTask | job/service.go:350-382 | when a task may be deleted, that only its row goes, and that a refusal changes nothing |
| Presence.ConnStatusTable.UpdateConnStatus | shadow/shadow_repo.go:86-123 | a batch of guarded row updates; no row appears or vanishes, and one update sets the flag and the time of its kind unless the row knows a later time |
| Presence.EmbedBroker.UpdateClient | connector/mqtt/embed/embed_broker.go:294-316 | the cache rule of the embedded broker |
| Presence.EmqxAdapter.UpdateClient | connector/mqtt/emqx/emqx.go:226-247 | the EMQX adapter follows the same cache rule |
| Presence.RowShowsLatest | shadow/shadow_repo.go:86-123 | after presence events in any order, the row shows the latest event and its time |
| Presence.RowKeepsBothTimes | shadow/shadow_repo.go:86-123 | after any events, each of the two times is that of the last event of its kind that was the newest on arrival |
| Presence.RowIgnoresOrder | shadow/shadow_repo.go:86-123 | with distinct times, the delivery order does not matter |
| Presence.RowsAreIndependent | shadow/shadow_repo.go:88-119 | in a batch over many things each row follows the events of its own thing |
| Presence.CacheShowsLatestSinceConnect | connector/mqtt/embed/embed_broker.go:294-316 | the cache shows the latest event from the first connect on |
| Presence.CacheAgreesExactly | connector/mqtt/embed/embed_broker.go:298-309 | cache and row disagree if and only if the latest event of all is a disconnect before the first connect while the latest from that connect on is a connect |
| Presence.CacheAgreesAfterConnect | connector/mqtt/embed/embed_broker.go:294-316 | when the first event is a connect they agree |
| Presence.CacheMayDisagree | connector/mqtt/embed/embed_broker.go:298-309 | two events after which they do not |
| MethodRendezvous.StepKeepsResults | shadow/method.go:147-179 | no step separates a received message from its responder |
| MethodRendezvous.StepKeepsClosed | shadow/method.go:181-188 | no step closes a channel twice |
| MethodRendezvous.MessagesReachTheirInvocation | shadow/method.go:147-195 | under every interleaving with distinct tokens: own thing and token, one invocation per response, no entry after return, no double close |
| MethodRendezvous.ResultTellsCause | shadow/method.go:167-178 | in every run an invocation returns a time-out if and only if it timed out, a cancel if and only if it was canceled, a send error if and only if publishing failed, and a message otherwise |
| MethodRendezvous.OneMessageEach | shadow/method.go:262-278 | an invocation receives from one responder only |
| MethodRendezvous.ResponderIsReleased | shadow/method.go:262-278 | a blocked responder is released by the steps its invocation has left, and at once after its return |
| MethodRendezvous.StrandedForever | shadow/method.go:181-195 | a responder whose entry was overwritten waits through every further run |
| MethodRendezvous.SharedTokenStrands | shadow/method.go:190-195 | two calls with one key after which a responder is stranded |
| MethodRendezvous.FreshKeyIsExact | shadow/method.go:181-195 | in every state reached with distinct tokens, a new invocation can strand a responder, with all later tokens fresh, if and only if an active invocation has its key |
| MethodRendezvous.PanicIsExact | shadow/method.go:181-188 | and it can bring about a second close of a channel if and only if an invocation with its key has not yet looked up the entry it will remove |
| MethodRendezvous.StepClosesOwn | shadow/method.go:181-188 | as long as no such invocation is joined, every removal finds its own entry |
| MethodRendezvous.MethodHandler.AddPending | shadow/method.go:190-195 | the nested maps after storing an entry |
| MethodRendezvous.MethodHandler.RemovePending | shadow/method.go:181-188 | the nested maps after find, close and delete |
| MethodRendezvous.MethodHandler.FindPending | shadow/method.go:262-268 | the entry a responder finds |
| Topics.MatchWalks | connector/mqtt/mock/route.go:12-29 | what the recursive matcher accepts on any filter |
| Topics.MatchFollowsRules | connector/mqtt/mock/route.go:12-29 | on filters with "#" only at the end it follows section 4.7.1 of MQTT Version 3.1.1 |
| Topics.MatchTopicMethod | web/src/utils/subs.js:79-93 | what the loop accepts on any filter |
| Topics.LoopFollowsRules | web/src/utils/subs.js:79-93 | on filters with "#" only at the end the loop follows the same rules |
| Topics.MatchersDifferExactly | web/src/utils/subs.js:85-87 | the two differ if and only if "#" stands inside the filter, the levels before it match, and the topic is shorter than the filter by two or more |
| SqlGrammar.AcceptedTextIsTokens | pkg/sqlparser/sql.go:372-424 | an accepted text is the concatenation of tokens with spaces between them |
| SqlGrammar.KeywordToken | pkg/sqlparser/sql.go:389-403 | how the fixed words of an INSERT are peeked before any rest |
| SqlGrammar.NameToken | pkg/sqlparser/sql.go:389-424 | a name that starts with no reserved word is peeked whole |
| SqlGrammar.ValueToken | pkg/sqlparser/sql.go:405-415 | a value in which a backslash stands before every quote, and none at the end, is peeked whole |
| SqlGrammar.ValueIsExact | pkg/sqlparser/sql.go:405-415 | and no other value is |
| SqlGrammar.InsertRoundTrip | pkg/sqlparser/sql.go:292-362 | every rendered INSERT, with any table, fields and rows, parses back to its query |
| SqlRoundTrip.SelectRoundTrip | pkg/sqlparser/sql.go:116-163 | every rendered SELECT, with any fields, aliases, table and tests, parses back; it is the query that was meant if and only if no quoted literal in a test looks like an identifier |
| SqlRoundTrip.UpdateRoundTrip | pkg/sqlparser/sql.go:180-230 | the same for UPDATE with any number of assignments and tests |
| SqlRoundTrip.DeleteRoundTrip | pkg/sqlparser/sql.go:172-179 | the same for DELETE |
| SqlRoundTrip.TestParse | pkg/sqlparser/sql.go:238-284 | one test of a WHERE clause: column, each of the six operators by its sign, and a column or literal on the right |
| SqlRoundTrip.ReadSpelled | pkg/sqlparser/sql.go:238-284 | the conditions of a query in terms of the tests it was rendered from |
| SqlRoundTrip.ReadAsMeant | pkg/sqlparser/sql.go:268-282 | conditions are read as meant if and only if every quoted literal has no letter or is a reserved word |
| SqlRoundTrip.LastAliasWins | pkg/sqlparser/sql.go:121-136 | a field has its last alias, and only given ones |
| SqlRoundTrip.LastAssignmentWins | pkg/sqlparser/sql.go:210-216 | a field has its last value, and only assigned ones |
| SqlRoundTrip.CaseIsIgnored | pkg/sqlparser/sql.go:389-403 | a reserved word may be written in any case |
| SqlRoundTrip.WordToken | pkg/sqlparser/sql.go:389-424 | a word is peeked whole before a space, a comma or the end of the text |
| SqlParser.Parser.PeekWithLength | pkg/sqlparser/sql.go:389-403 | peeking stays in range and yields the first token |
| SqlParser.Parser.PeekQuotedStringWithLength | pkg/sqlparser/sql.go:405-415 | the text up to the first quote that no backslash precedes; nothing exactly if there is none |
| SqlParser.Parser.PeekIdentifierWithLength | pkg/sqlparser/sql.go:417-424 | the longest run of letters, digits, "_", "*" and "." |
| SqlParser.Parser.Pop | pkg/sqlparser/sql.go:372-382 | consumes the token and all spaces after it |
| SqlParser.Parser.DoParse | pkg/sqlparser/sql.go:88-365 | on every text the loop ends, indexes nothing out of range, succeeds exactly when the automaton accepts, and then has read to the end |
| SqlParser.Parser.Validate | pkg/sqlparser/sql.go:426-461 | the checks after parsing, each spelled out |
| SqlParser.Parse | pkg/sqlparser/sql.go:78-86 | the result is the query of the automaton when it passes the checks: those of the four round trips for every rendered statement |

## Left out

* HTTP handlers, the web console, configuration, logging, wire code, AMQP and MQTT clients, jq, gorm and the SQL engines: plumbing or foreign code without a deep property.
* The SQL query translation of the shadow (shadow/sqlparser.go): it rests on an external parser and regular expressions.
* Clock readings inside one shadow request: one time stands for all of them, so stamps of one update cannot differ by a millisecond.
* JSON numbers: one number type; the distinction between decoded floats and other Go number types when comparing is not modelled. Values of unsupported Go types, on which the code exits, do not occur.
* The notices' time stamps and the delivery to several subscribers.
* ShadowService.ShadowTable.Create: does not model the connection row of the same transaction, because the rows of presence are kept in Presence.
* Save of gorm, which may insert when no row matched: the version was checked in the same transaction before.
* Real channels, goroutine pools and blocking: steps are atomic and interleave; no freedom from deadlock between the center and runner loops is claimed.
* The list of pending tasks that the runner and the center hand out on request.
* Operations that are not system operations, and retry: unfinished in the source. DeleteTaskOfJob and CancelTaskOfJob both send the same delete message, which is modelled.
* A break in the dispatch loop is a flag in the model; a failed connection check is only logged in the source and treated as online.
* Job rows written by the schedule filter, and the map of job contexts: the runner gets a job's context as an answer of the environment.
* An unknown end behaviour of a schedule, on which the process exits, and rounding of elapsed seconds to a float.
* Rollout at most once is not claimed for a job whose tasks were read again from the database under the CANCEL end behaviour (job/center.go:429-438).
* Errors of the database inside one transaction are one flag: nothing is written. Task rows carry the columns that the writers touch.
* Deleting a job from the management call (job/service.go:261-271), creating jobs, and the messages from the management service to the center.
* UpdateAllConnStatusDisconnect and the first synchronisation of presence after a start.
* Sleeping and the online check in InvokeMethod; an invocation that waits first runs the same protocol twice.
* $-topics and shared subscriptions: the two matchers treat them differently on purpose.
* Trimming the SQL text, the wording of error messages, and upper-casing beyond ASCII: a text is a string of bytes without surrounding space, and only ASCII letters have an upper case.
* The difference between nil and empty for fields, rows and aliases of a parsed query.
