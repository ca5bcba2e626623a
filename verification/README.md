# Verification of the VM inventory portal

A Dafny model of a portal that collects virtual machines from vCenter and Hyper-V into one
inventory and serves it, page by page, to users with different scopes. The model covers what
holds state there: the two tables behind the inventory, the collection pipeline with its
in-process guard, accounts with roles, scopes and the login lock, the start-up race for the
first administrator, the scoped query, and three small algorithms (layer rules, stored
credentials, message masking).

Code that changes state step by step is modelled by classes and loops with the same branches.
Each such method is proved against a function that says outright what the new state is, and the
results over whole runs are proved about these functions. What each function answers is also told from its inputs alone
(the lemmas named `...Told`, `...Shown` and `...Way`), so that no branch of it rests on its own definition.

| file | what it models | main results |
|---|---|---|
| `Domain`, `Inventory`, `History` | one row for each (connection, native id), and what a run of observations makes of it | rows are determined by each machine's own history; guest values survive "tools down"; recollecting changes nothing |
| `VmRepository` | the machine table, the identity index and the upsert | table and index together behave as that map; the unique constraint never fires |
| `Streams`, `VCenterReader`, `HyperVReader` | token paging, the cluster's node loop | the stream is a function of the objects on all pages; every node is accounted for; views and sessions are released |
| `Connections`, `CollectService`, `CollectionRun` | batching, failure branches, commit and rollback | page and batch size do not matter; one verdict for each run; no machine is ever lost |
| `AdmissionGuard`, `InterleavedRuns` | requests and background tasks interleaved at their awaits | one task for each admitted connection; machines and connections are always those of whole runs, one after the other in commit order |
| `Lockout`, `Accounts`, `AccountRules`, `AccountServices`, `Bootstrap` | login lock, account operations, start-up | exact rate of wrong verdicts; administrators never run out; scopes are those last granted; who is admitted, and when each operation succeeds |
| `Query` | filter, sort, cut, count | pages partition the listing; a machine shows if and only if it is wanted; nothing outside the scope shows |
| `Base64Url`, `Cipher`, `Masking`, `Layers` | stored credentials, secret removal, layer rules | credentials survive key rotations; exactly which secrets are removed; import cycles stay in one layer |

Conventions: instants are microseconds on one clock. Identifiers drawn at random are any value not in use.
A database session is a private copy that a commit publishes and a rollback drops. Exceptions are
`Result` or verdict values; an exception that may strike at a call the model cannot see into is a
parameter. Message texts are shortened. AES-GCM, UTF-8, password checks, pattern masking and the
decoding of configured keys are parameters; only AES-GCM and UTF-8 are assumed to be inverse pairs.

Where code and documentation differ, the model follows the code:

- A reader's collected count includes an object whose mapping then fails (src/infrastructure/vcenter/reader.py:73),
  so it is one more than the machines handed on. `VCenterReader.ReportedCount` says exactly when,
  `VCenterReader.CountOneTooMany` gives an example.
- The running set is described as released on every path, but an exception between registration and the
  request's `try`, or before the background task's `try`, leaves its id behind. `AdmissionGuard.EmptyAtRestUnlessLeaked`
  says exactly when the set is empty at rest, `AdmissionGuard.SetupFailureLeaks` shows a leak, and
  `AdmissionGuard.LeakIsForever` what a leaked id means. The premise is that a scheduled task does begin at some time: one that is never started counts as live, and keeps its id, for ever.
- The paging loop releases its view in a `finally`, but its consumer never closes it: when the mapper raises, the view is
  still open as the stream ends (`VCenterReader.ListVirtualMachines` says exactly when) and is released once Python
  finalizes the generator (`VCenterReader.PageGenerator.Close`), possibly after the session has been closed.
- An unexpected exception does not always leave the machines as they were: a run that fails after its commit keeps what it
  has collected and is recorded as failed. `CollectionRun.TableUnchangedIff` says exactly when nothing has changed,
  `CollectionRun.LateFaultChangesTheTable` gives an example.
- A login lost in mid-stream drops the waiting batch, while the batches flushed before are committed
  although the summary counts nothing. `CollectService.SummaryCountsTheWritten` gives the exact condition, one full
  batch, and `CollectService.LostLoginCountsNothing` an example.
- Enabling an account also activates one that is still pending, without the approval that sets role and scope:
  `Accounts.EnableIff` says exactly when, `Accounts.EnabledAsItWas` and `Accounts.EnabledNewcomer` with what rights.
- A refused login raises, so its request rolls the failure counter back (src/api/deps.py:58-60). The lock therefore works
  exactly for service calls whose row changes are kept: `Accounts.LocksIffKept`, `Accounts.RequestsNeverLock`. The
  results of `Lockout` are about such calls.
- Known secrets shorter than four characters, and secrets with a star at either end or three stars inside,
  are not always removed: `Masking.RemovedIffErasable`.
- The adapter rules look at one import at a time; a chain of accepted imports may still lead from a use case, or from one
  adapter, to another adapter. `Layers.AdapterReachableIffBridge` says exactly when: as soon as the project has a module
  of infrastructure outside the adapters. `Layers.ChainsAroundTheRules` shows two chains under the repository's own table.

## Model

| member | source | states |
|---|---|---|
| Domain.NativeKeyTextInjective | src/domain/identity.py:31-38 | two machines have the same rule-1 key text if and only if connection and native id agree, whatever ':' a native id holds |
| Inventory.ReplayInPieces | src/infrastructure/repository/vm_repo.py:80-104 | cutting a run of observations anywhere, so into any batches, leaves the same rows |
| Inventory.TallyInPieces | src/application/collect_service.py:161-166 | the counts of the pieces add up to the counts of the whole run |
| Inventory.TallyTotal | src/infrastructure/repository/vm_repo.py:80-104 | created + updated + unchanged is the number of machines observed |
| Inventory.CountTold | src/infrastructure/repository/vm_repo.py:93-104 | a new machine counts as created; a known one as updated if and only if some stored column but the time of its guest values changes |
| VmRepository.SortByRuleSorts | src/infrastructure/repository/vm_repo.py:106-132 | keys are tried most trusted rule first, each as often as given |
| VmRepository.MatchingIsTheRowOfTheKey | src/infrastructure/repository/vm_repo.py:106-132 | with the index in agreement, a machine's key text is carried by exactly the index row of its own table row, or by none: no look-up is ambiguous |
| VmRepository.LookupIsMapLookup | src/infrastructure/repository/vm_repo.py:106-132 | the look-up through the index finds a row exactly when the map has the key, and finds that row |
| VmRepository.Repository.FindByIdentity | src/infrastructure/repository/vm_repo.py:106-132 | returns the first key, in trust order, that exactly one index row carries; None if there is none |
| VmRepository.Repository.InsertVm | src/infrastructure/repository/vm_repo.py:134-146 | adds exactly one row under an unused id, and fails exactly when the (connection, native id) constraint would be violated |
| VmRepository.Repository.UpdateVm | src/infrastructure/repository/vm_repo.py:152-164 | rewrites the observed columns of one row, reports a change exactly when a tracked column changed, keeps first_seen_at and lifecycle |
| VmRepository.Repository.SyncIdentities | src/infrastructure/repository/vm_repo.py:166-186 | a resource's index rows become exactly the given keys, all other index rows stay |
| VmRepository.SyncRestoresIndex | src/infrastructure/repository/vm_repo.py:166-186 | after the row and its index rows are written, one index row for each machine row, none dangling, and the tables read as the map after one observation |
| VmRepository.Repository.UpsertOne | src/infrastructure/repository/vm_repo.py:85-104 | one turn of the upsert is one observation on the map, with its count; ids stay; never an integrity error |
| VmRepository.Repository.UpsertVirtualMachines | src/infrastructure/repository/vm_repo.py:80-104 | any batch, repeated native ids included, refines the run of its observations on the map: same rows, same counts, index in agreement, row ids kept, no integrity error |
| History.SettledStep | src/domain/values.py:41-60 | merging one more observation into a settled row settles the longer history |
| History.RowsAreSettledHistories | src/infrastructure/repository/vm_repo.py:266-320 | after any run there is one row for each machine ever seen, determined by that machine's own observations |
| History.LastKnownGuest | src/domain/values.py:41-60 | stored guest values and their time are those of the latest available observation, or of the first if none was; availability is that of the latest |
| History.WhereGuestValuesComeFrom | src/domain/values.py:41-60 | that observation is the latest with tools available, or the first when none was |
| History.LatestObservation | src/infrastructure/repository/vm_repo.py:277-295 | after any run a row has the name, states, BIOS id, configured OS and host of its latest observation, its vCPU count and memory with zero as unknown, and the times of its first and latest observation |
| History.InterleavingIrrelevant | src/infrastructure/repository/vm_repo.py:80-104 | runs that only interleave different machines differently leave the same inventory |
| History.OthersUntouched | src/infrastructure/repository/vm_repo.py:80-104 | a run changes no row of a machine it does not observe |
| History.RowsStay | src/infrastructure/repository/vm_repo.py:134-164 | no row disappears; first_seen_at and lifecycle never change |
| History.RecollectionChangesNothing | src/infrastructure/repository/vm_repo.py:93-104 | collecting the same distinct machines again creates and updates nothing, even if the guest values were read at another time |
| Streams.MappedPrefix | src/infrastructure/vcenter/reader.py:70-76 | the machines handed on are exactly those before the first object that cannot be mapped |
| VCenterReader.PagedKeepsObjects | src/infrastructure/vcenter/collector.py:80-107 | a server that cuts its objects into pages of any size yields the same objects in the same order |
| VCenterReader.LinkedPages | src/infrastructure/vcenter/collector.py:89-107 | for every list of linked pages the objects are their concatenation, the exception that ends them gets out, and an absent result or a page with no or an empty token is the end |
| VCenterReader.PageGenerator.Next | src/infrastructure/vcenter/collector.py:89-107 | yields the objects on all pages one by one, ends as the server ends, and has released the view on every exit |
| VCenterReader.PageGenerator.Fetch | src/infrastructure/vcenter/collector.py:80-107 | one call to the server leaves the objects still to come and the way the paging ends as they were; the end releases the view |
| VCenterReader.PageGenerator.ReadOn | src/infrastructure/vcenter/collector.py:100-107 | within a page: the next object in order, or the next call, or the end with the view released |
| VCenterReader.PageGenerator.Close | src/infrastructure/vcenter/collector.py:105-107 | what the `finally` does when Python finalizes a generator dropped early: the view is released, and never twice |
| VCenterReader.ListVirtualMachines | src/infrastructure/vcenter/reader.py:67-91 | for every finite token chain the stream is a function of the objects on all pages and of the failure that ends them; the view is released by the end of the stream if and only if it could not be created or every object can be mapped |
| VCenterReader.CountOneTooMany | src/infrastructure/vcenter/reader.py:73-74 | an example: one machine handed on, two reported |
| VCenterReader.ReportedCount | src/infrastructure/vcenter/reader.py:67-91 | exactly one outcome; its count is the number of machines handed on if and only if every object could be mapped, else one more |
| VCenterReader.StreamTold | src/infrastructure/vcenter/reader.py:70-91 | a full listing ends with one outcome counting it; a refused login as a lost login with no outcome; any other exception with one failed outcome in its words |
| HyperVReader.Traversal.VisitNode | src/infrastructure/hyperv/host_reader.py:101-140 | one node: its rows are appended, or it is added to the failed nodes with its reason; a session is created and closed exactly for a node that is up |
| HyperVReader.Traversal.VisitNodes | src/infrastructure/hyperv/host_reader.py:94-150 | output is the concatenation in node order up to the first node that stops the traversal; after a refused login no node is contacted and no outcome recorded; every session is closed |
| HyperVReader.EveryNodeAccountedFor | src/infrastructure/hyperv/host_reader.py:101-140 | nodes that answered and failed nodes add up to the nodes visited, and the failed list names exactly the failed ones with their reasons |
| HyperVReader.FailedOnlyWhenNothingRead | src/infrastructure/hyperv/host_reader.py:141-150 | a finished traversal is reported failed if and only if some node failed and no machine was read |
| HyperVReader.UpTold | src/infrastructure/hyperv/host_reader.py:102 | a node is up exactly when its state reads "up" in any case |
| HyperVReader.OneMoreNode | src/infrastructure/hyperv/host_reader.py:101-125 | what one more node adds: its machines if it answered, an entry with the reason if not, a contact if it was up |
| HyperVReader.StopTold | src/infrastructure/hyperv/host_reader.py:112-125 | a refused login, an unknown exception or the first object that cannot be mapped stops the traversal and goes out, with no outcome |
| HyperVReader.FailuresTold | src/infrastructure/hyperv/host_reader.py:141-149 | the error names the failed nodes in order, each with its reason |
| HyperVReader.ListTold | src/infrastructure/hyperv/host_reader.py:94-100 | what becomes of a failed node list query, and of a list without names |
| HyperVReader.NamesTold | src/infrastructure/hyperv/host_reader.py:152-164 | the nodes are the named entries in order, each in its state or "Unknown" |
| HyperVReader.HostTold | src/infrastructure/hyperv/host_reader.py:126-150 | one host: its rows and one outcome counting them, or the failure in the adapter's words |
| HyperVReader.HandOn | src/infrastructure/hyperv/host_reader.py:123-125 | rows are mapped and handed on in order up to the first that cannot be mapped, whose exception goes out |
| HyperVReader.ListHostMachines | src/infrastructure/hyperv/host_reader.py:126-150 | the single host: its rows in order, or the outcome or exception of the failed query |
| HyperVReader.ListClusterMachines | src/infrastructure/hyperv/host_reader.py:94-164 | node list errors, an empty node list and the traversal give the stream stated by the specification |
| Connections.ConnectionRepository.MarkAttempt | src/infrastructure/repository/connection_repo.py:86-97 | records the attempt and clears the last error of that connection only |
| Connections.ConnectionRepository.MarkSuccess | src/infrastructure/repository/connection_repo.py:99-106 | active, no error, success time; nothing for a connection that is gone |
| Connections.ConnectionRepository.MarkFailure | src/infrastructure/repository/connection_repo.py:108-120 | error and status of that connection only |
| Connections.WritersTold | src/infrastructure/repository/connection_repo.py:86-120 | column by column, what each of the three writers leaves in the row |
| CollectService.SummaryCountsTheWritten | src/application/collect_service.py:88-119 | for every collection that returns, the summary counts exactly what was written, unless the login was lost after a full batch |
| CollectService.LostLoginCountsNothing | src/application/collect_service.py:114-117 | an example: one machine written, none counted |
| CollectService.FlushedInFullBatches | src/application/collect_service.py:88-101 | after n machines: n = flushed batches times batch size + waiting, and less than one batch waits, for every batch size |
| CollectService.FlushesAreTheQuotient | src/application/collect_service.py:88-101 | flushed batches and waiting machines are quotient and remainder by the batch size; a size below one flushes every machine |
| CollectService.RaisesIffSurprised | src/application/collect_service.py:58-159 | an exception leaves exactly when the start, the stream, a flush that there is, or writing the verdict raised one nobody catches |
| CollectService.WrittenAreTheKept | src/application/collect_service.py:88-117 | written are all machines after a normal end, those of the full batches after a lost login, none without a session |
| CollectService.VerdictTold | src/application/collect_service.py:63-159 | success exactly when the session opened, the stream was read to its end and the reader reported no failure; each failed start, lost login and reported failure with its status and words |
| CollectService.SummaryTold | src/application/collect_service.py:134-172 | what the summary reports: counts only after a stream read to its end, the reader's own error, failed exactly when the verdict is |
| CollectService.Service.FlushFullBatches | src/application/collect_service.py:88-101 | after the loop everything but the waiting rest has been upserted in order and counted |
| CollectService.Service.Consume | src/application/collect_service.py:88-113 | the stream is read to its end, the last batch is flushed only after a normal end, and a database error is let out exactly at the flush it strikes |
| CollectService.Service.Collect | src/application/collect_service.py:58-159 | exactly when an exception leaves; otherwise the summary, the rows written and the verdict of every branch; the session is closed once |
| CollectionRun.Database.RecordAttempt | src/api/routes/connections.py:146-176 | the attempt is recorded and committed, or the connection reported missing |
| CollectionRun.Database.CollectOnce | src/api/routes/connections.py:197-231 | a run publishes all its writes or none; row ids are kept; an unexpected exception is recorded |
| CollectionRun.Database.RemoveConnection | src/application/connection_service.py:126-143 | permission, then existence, then no active machine; the connection goes exactly when all three hold |
| CollectionRun.Database.HandleAll | src/api/routes/connections.py:137-264 | any history of registrations, attempts, collections and removals leaves the tables the events say, and every machine its row id |
| CollectionRun.Database.MarkUnexpectedFailure | src/api/routes/connections.py:234-264 | a second session records the failure and touches no machine |
| CollectionRun.SingleVerdict | src/api/routes/connections.py:197-264 | wherever an exception strikes, a run that can write ends as success (active, no error, success time) if it was clean, and otherwise with an error and a status other than active |
| CollectionRun.VerdictShown | src/application/collect_service.py:63-159 | the connection is active if and only if nothing struck, the session opened, the stream was read to its end and the reader reported no failure; otherwise it shows which failure it was, in whose words; the other columns stay |
| CollectionRun.MachinesShown | src/api/routes/connections.py:203-231 | the machines are as before after an exception before the commit, else those kept have been written in order |
| CollectionRun.NoTrace | src/api/routes/connections.py:209-264 | a run whose connection is gone, or whose failure cannot be recorded, leaves no trace of its own |
| CollectionRun.FaultBeforeCommitChangesNoRow | src/api/routes/connections.py:203-231 | an unexpected exception before the commit leaves the machines as they were |
| CollectionRun.FaultAfterCommitKeepsRows | src/api/routes/connections.py:203-231 | one after the commit leaves the collected machines, and a failed verdict |
| CollectionRun.TableUnchangedIff | src/api/routes/connections.py:203-231 | when the clock has moved on since the stored rows were seen: a run leaves the machines exactly as before if and only if it fails before its commit or has written nothing |
| CollectionRun.LateFaultChangesTheTable | src/api/routes/connections.py:213-231 | an example: one machine committed, then the log call raises; the run looks failed and the machine is there |
| CollectionRun.OtherConnectionsUntouched | src/api/routes/connections.py:197-264 | a run changes no other connection's row |
| CollectionRun.AlwaysSound | src/infrastructure/repository/connection_repo.py:86-120 | in every reachable state a recorded error goes with a status other than active, and every machine belongs to a registered connection |
| CollectionRun.MachinesStay | src/api/routes/connections.py:182-231 | through every history of runs, good or bad, no machine is lost and each keeps first_seen_at |
| CollectionRun.PageAndBatchSizeIrrelevant | src/application/collect_service.py:88-132 | for every token chain that ends normally and every batch size, the whole pipeline writes the machines in order, counts each once, and created + updated + unchanged = objects on all pages = reported count |
| CollectionRun.OneAtATime | src/application/collect_service.py:88-113 | a batch writes what one machine at a time writes |
| AdmissionGuard.AlwaysGuarded | src/api/routes/connections.py:158-194 | in every interleaving the set holds exactly the ids of live tasks and leaked ids, one task for each id |
| AdmissionGuard.InSetMeansOneTask | src/api/routes/connections.py:158-194 | an id is in the set if and only if exactly one task for it is live, or it has leaked; so upserts of one connection never overlap |
| AdmissionGuard.EmptyAtRestUnlessLeaked | src/api/routes/connections.py:158-194 | with no live task the set is empty if and only if no exception struck between registration and the request's try, or before the background try |
| AdmissionGuard.LeakedIffSomeActionLeaks | src/api/routes/connections.py:158-194 | an id is leaked exactly by such an exception |
| AdmissionGuard.SetupFailureLeaks | src/api/routes/connections.py:158-163 | an example: one request whose setup raises; nobody is at work and the connection stays taken |
| AdmissionGuard.BackgroundSetupFailureLeaks | src/api/routes/connections.py:187-194 | the same for a background collection that cannot set up |
| AdmissionGuard.WholeWay | src/api/routes/connections.py:158-214 | a connection nobody collects is admitted, collected, published and released, and the server is as before but for what was collected |
| AdmissionGuard.WaysBack | src/api/routes/connections.py:165-194 | a request without a connection and a collection rolled back leave the server as it was |
| AdmissionGuard.LeakIsForever | src/api/routes/connections.py:158-162 | a leaked id admits no task ever again |
| AdmissionGuard.FlushIsReplay | src/infrastructure/repository/vm_repo.py:80-104 | what a session sees after a flush is the run of its observations on what it saw before |
| AdmissionGuard.FlushAcrossCommit | src/infrastructure/repository/vm_repo.py:85-104 | a flush during which another connection's rows are committed writes what it writes undisturbed, wherever it is cut |
| AdmissionGuard.ForeignCommit | src/api/routes/connections.py:197-231 | a commit of another connection does not disturb an open session |
| AdmissionGuard.InterleavingIsSerial | src/api/routes/connections.py:182-231 | for any number of interleaved tasks, the committed inventory is that of the committed collections running one after the other in commit order |
| InterleavedRuns.ForeignCommutes | src/infrastructure/repository/connection_repo.py:86-120 | a failure verdict may be written before or after any attempt, run or registration of another connection, and any removal |
| InterleavedRuns.LateFailure | src/api/routes/connections.py:225-264 | recording a late failure now is the same as that run having failed late in its place in the history |
| InterleavedRuns.CommittedRun | src/api/routes/connections.py:203-213 | the commit of an interleaved session does to both tables what the run does as a whole |
| InterleavedRuns.MoveSound | src/api/routes/connections.py:106-264 | every move of any task, late failures, registrations and removals included, keeps the tables those of the history |
| InterleavedRuns.InterleavedRunsAreSerial | src/api/routes/connections.py:106-264 | in every interleaving machines and connections are those of whole runs, one after the other in commit order; so an error goes with a status other than active, and every machine with a registered connection |
| InterleavedRuns.WholeWay | src/api/routes/connections.py:158-214 | a run nothing strikes goes all the way: attempt and run are in both tables and in the history |
| InterleavedRuns.WayOfFailure | src/api/routes/connections.py:203-264 | a run struck before its commit leaves the machines and records its failure |
| InterleavedRuns.LateWay | src/api/routes/connections.py:213-264 | a run struck after its commit is committed, and its failure recorded if that works |
| InterleavedRuns.RequestsTold | src/api/routes/connections.py:106-134 | registrations and removals write what the history says |
| AdmissionGuard.RunningCollections.TryAdmit | src/api/routes/connections.py:158-163 | test and registration are one step of the system |
| AdmissionGuard.RunningCollections.Discard | src/api/routes/connections.py:187-194 | release takes out the task's id and no other |
| Lockout.CounterBelowLimit | src/infrastructure/repository/user_repo.py:86-98 | the failure counter stays below the limit in every reachable state |
| Lockout.NothingCountsWhileLocked | src/application/auth_service.py:52-58 | attempts during a lock, right password or not, are refused and change neither counter nor lock |
| Lockout.RunAccounted | src/infrastructure/repository/user_repo.py:86-106 | wrong verdicts so far = locks times limit + counter, and each lock moves the next round one lockout further |
| Lockout.LockoutRate | src/application/auth_service.py:52-74 | between a and b, without a successful login, at most M * (floor((b - a) / L) + 1) - c wrong-password verdicts |
| Lockout.RateIsExact | src/application/auth_service.py:52-74 | the bound is the best there is: between any a <= b some run in clock order, with nobody admitted, reaches it |
| Lockout.RateIsAttained | src/infrastructure/repository/user_repo.py:86-98 | a burst at every end of the lock gets limit times rounds wrong verdicts, less those counted before |
| Lockout.FullRateInOrder | src/infrastructure/repository/user_repo.py:86-98 | that run is within the span and in clock order |
| Accounts.ApplyKeepsAnAdmin | src/application/user_service.py:153-189 | no single operation by any actor removes the last active administrator |
| Accounts.AdministratorsNeverRunOut | src/application/user_service.py:118-241 | nor does any sequence of operations |
| Accounts.ApplyEvolves | src/domain/auth.py:60-66 | one operation moves a status only along an allowed transition, renames and deletes nobody, creates at most one pending account |
| Accounts.AccountsStay | src/application/user_service.py:54-172 | through every history accounts and usernames stay, and a rejection is final |
| Accounts.AlwaysConsistent | src/application/user_service.py:54-204 | usernames stay unique and lowercase, everyone active or disabled but the first account has an approver, no administrator has scope rows, scopes name existing accounts and connections |
| Accounts.ScopeIsLastGrant | src/infrastructure/repository/user_repo.py:150-163 | a user's scope is the one last granted less the connections removed since |
| Accounts.DemotedSeesNothing | src/application/user_service.py:174-189 | a demoted administrator sees nothing until somebody grants something |
| Accounts.DefaultDeny | src/application/user_service.py:42-97 | after a registration that creates an account, through every history without a grant, the user is no administrator and sees nothing, and is a viewer until the role is set |
| Accounts.RoleStays | src/infrastructure/repository/user_repo.py:128-134 | a role changes only by an approval or a change of role |
| Accounts.EnableIff | src/application/user_service.py:165-172 | enabling succeeds if and only if the actor may manage users and the account exists and is pending or disabled |
| Accounts.EnabledAsItWas | src/application/user_service.py:165-172 | it changes status and approver only; role and scope are those the account had |
| Accounts.EnabledNewcomer | src/application/user_service.py:165-172 | a registered newcomer enabled without an approval is an active viewer who sees nothing |
| Accounts.OnlyLoginTouchesLocks | src/infrastructure/repository/user_repo.py:86-106 | only a login under that name moves an account's counter or lock, and a request only clears them |
| Accounts.RequestsNeverLock | src/api/deps.py:45-60 | over every history of requests no failure is counted and no lock is set |
| Accounts.WrongPasswordsStayUnlimited | src/api/deps.py:45-60 | so, from open locks, a wrong password is tried on every request, whatever came before |
| Accounts.LocksIffKept | src/application/auth_service.py:57-64 | as many wrong passwords as the limit allows lock the account if and only if the row changes of refused logins are kept |
| Accounts.CountersBelowLimit | src/infrastructure/repository/user_repo.py:86-98 | all counters stay below the limit through every history of operations |
| AccountRules.RightsOfRoles | src/domain/auth.py:23-58 | everyone reads and exports, viewers change nothing, all else is for administrators |
| AccountRules.ReachOfScope | src/domain/auth.py:93-127 | an administrator reaches every connection, others exactly those of their scope rows |
| AccountRules.StripTold | src/application/user_service.py:54-60 | stripping takes blanks off both ends until none is left there, and nothing else |
| AccountRules.LowerTold | src/application/user_service.py:54-60 | lowercasing changes capitals only |
| AccountRules.UsernameTold | src/application/user_service.py:54-60 | 3 to 64 small letters, digits, dots, hyphens and underscores |
| AccountRules.VerdictTold | src/application/auth_service.py:52-74 | the answer of a login, from lock, password and status |
| AccountRules.LoginTold | src/application/auth_service.py:52-74 | a login succeeds if and only if the lock has run out, the password is right and the account active; it clears counter and lock |
| AccountRules.LoginCallTold | src/infrastructure/repository/user_repo.py:86-106 | the bare call: one failure more, or at the limit a lock and a counter back at zero |
| AccountRules.UnknownNameRefused | src/application/auth_service.py:46-50 | a name nobody has is refused and changes nothing |
| AccountRules.RegisterTold | src/application/user_service.py:54-97 | name, then password, then a waiting viewer, or nothing for a name that is taken |
| AccountRules.FirstRefusals | src/application/user_service.py:118-227 | every administrative operation refuses anyone but an administrator first, then a missing account |
| AccountRules.ApproveTold | src/application/user_service.py:118-132 | when an approval succeeds, and the account and scope it leaves |
| AccountRules.RejectTold | src/application/user_service.py:141-145 | only a waiting account is rejected; the reason is kept |
| AccountRules.DisableTold | src/application/user_service.py:153-160 | somebody else's active account, unless it is the last active administrator; each refusal exactly when |
| AccountRules.ChangeRoleTold | src/application/user_service.py:174-183 | somebody else's role, but not down from the last active administrator; promotion clears the scope |
| AccountRules.SetScopesTold | src/application/user_service.py:191-198 | anyone's scope but an administrator's, of known connections; it replaces the old one |
| AccountRules.ConnectionsTold | src/application/connection_service.py:126-143 | with a connection go its scope rows, and nothing else |
| AccountServices.Services.CountActiveAdmins | src/infrastructure/repository/user_repo.py:27-35 | the number of active administrators other than the given account |
| AccountServices.Services.Replace | src/infrastructure/repository/user_repo.py:150-163 | the scope becomes exactly the given ids, repeats collapsed; an integrity error exactly for an unknown connection |
| AccountServices.Services.RegisterFailure | src/infrastructure/repository/user_repo.py:86-98 | one more failure, or the lock and a counter back at zero |
| AccountServices.Services.Register | src/application/user_service.py:42-97 | validation order, silent success for a taken name, a new account pending and lowercase |
| AccountServices.Services.Approve | src/application/user_service.py:118-139 | status, approver, role and scope together, or the exception of the first failing guard |
| AccountServices.Services.Reject | src/application/user_service.py:141-151 | only from pending; reason stored |
| AccountServices.Services.Disable | src/application/user_service.py:153-163 | not oneself, not the last administrator, only from active |
| AccountServices.Services.Enable | src/application/user_service.py:165-172 | active again, approver recorded, wherever the transition is allowed |
| AccountServices.Services.ChangeRole | src/application/user_service.py:174-189 | not oneself, not the last administrator; becoming administrator clears the scope |
| AccountServices.Services.SetScopes | src/application/user_service.py:191-204 | replaces the scope of anyone but an administrator |
| AccountServices.Services.Login | src/application/auth_service.py:42-74 | the service call: lock before password before status before reset, on the one account of that name |
| AccountServices.Services.Request | src/api/deps.py:45-60 | each request is the operation it names, whole or not at all; of a refused login nothing is kept |
| Bootstrap.AlwaysAtMostOne | src/main.py:44-80 | in every interleaving of start-ups: no account and at most one uncommitted row, or exactly the administrator |
| Bootstrap.NoDeadlock | src/main.py:44-80 | while a worker is not finished, some worker can go on |
| Bootstrap.StepsRunOut | src/main.py:44-80 | every step brings the end nearer |
| Bootstrap.OneAdministrator | src/main.py:54-77 | once all workers are finished there is exactly one account, an active administrator |
| Bootstrap.AdministratorFromTheStart | src/main.py:54-77 | from the start-up on, every history of operations keeps an active administrator and consistent accounts |
| Query.OrderingUnique | src/infrastructure/repository/vm_repo.py:213-222 | the row id breaks every tie, so the ORDER BY allows one sequence only |
| Query.OrderingExists | src/infrastructure/repository/vm_repo.py:213-222 | and allows one for every set of rows |
| Query.SearchVms | src/infrastructure/repository/vm_repo.py:190-225 | whatever order the database returns, the answer is the full one; the empty-scope shortcut included |
| Query.ListVirtualMachines | src/application/inventory_query.py:21-34 | permission, then page, and the out-of-scope shortcut agrees with the full filter, sort and cut |
| Query.PagesPartition | src/infrastructure/repository/vm_repo.py:213-225 | pages at offsets 0, limit, 2 * limit, ... put together are the listing, for every column, direction and limit |
| Query.EveryMachineOnOnePage | src/infrastructure/repository/vm_repo.py:207-225 | every matching machine is on exactly one page at one place, and total is their number |
| Query.ScopeHidesTheRest | src/infrastructure/repository/vm_repo.py:254-263 | two databases that agree inside the scope give the same items and total for every page |
| Query.ValidateTold | src/domain/query.py:45-53 | offset not negative, limit 1 to 500, one of six columns; which is refused first |
| Query.OnThePagesIffWanted | src/infrastructure/repository/vm_repo.py:199-225 | a machine is on the pages if and only if it is active, its connection exists and is in scope, and the filter, if there is one, names it; the total counts these |
| Query.ItemsTold | src/infrastructure/repository/vm_repo.py:323-343 | every item is a wanted machine, with its row's columns, its connection's name, and vCenter or Hyper-V |
| Query.ItemsInOrder | src/infrastructure/repository/vm_repo.py:212-222 | the items of a page rise or fall by the column asked for, unknown values last or first, equals by row id |
| Query.PowerWords | src/domain/enums.py:76-86 | power states are ordered by the words the table holds |
| Masking.ReplaceIsJoinedPieces | src/infrastructure/security/masking.py:53-54 | replacing cuts the text at occurrences of the secret and joins the pieces with the mask: nothing else is lost |
| Masking.NoPieceHoldsTheSecret | src/infrastructure/security/masking.py:53-54 | and no piece holds the secret |
| Masking.CutFromTheLeft | src/infrastructure/security/masking.py:53-54 | and it is cut from the left: each cut at the first occurrence in what remains |
| Masking.SanitizeMessage | src/infrastructure/security/masking.py:49-55 | no erasable secret is in the output, for every text, every pattern masking and every list of secrets |
| Masking.StarFreeIsErasable | src/infrastructure/security/masking.py:49-55 | every secret of four or more characters without a star is erasable |
| Masking.SecretIsGone | src/infrastructure/security/masking.py:49-55 | such a secret is not in the output, across mask boundaries and after later replacements |
| Masking.RemovedIffErasable | src/infrastructure/security/masking.py:49-55 | a secret is removed from every message if and only if it is long enough and has no star at either end and no mask inside |
| Masking.ErasableTold | src/infrastructure/security/masking.py:49-55 | the same in letters: four or more, no star at either end, nowhere three stars |
| Masking.MaskTold | src/infrastructure/security/masking.py:49-55 | three stars stand for a secret; one of up to three letters stays |
| Masking.FirstSecretFirst | src/infrastructure/security/masking.py:52-54 | secrets are removed in the order given |
| Masking.CleanMessageUntouched | src/infrastructure/security/masking.py:49-55 | a message in which no secret occurs is only pattern-masked |
| Base64Url.RoundTrip | src/infrastructure/security/cipher.py:61-65 | decoding inverts encoding, for all bytes |
| Base64Url.Encode | src/infrastructure/security/cipher.py:61-62 | the text is ASCII and has no '$' |
| Base64Url.AlphabetTold | src/infrastructure/security/cipher.py:61-62 | the alphabet, value by value |
| Base64Url.QuartetTold | src/infrastructure/security/cipher.py:61-62 | four letters stand for the number three bytes make |
| Base64Url.EndTold | src/infrastructure/security/cipher.py:61-62 | one or two bytes at the end are padded |
| Base64Url.DecodeTold | src/infrastructure/security/cipher.py:64-65 | other ASCII is passed over when reading, anything beyond ASCII is an error |
| Base64Url.LoneLetter | src/infrastructure/security/cipher.py:64-65 | a group cut to one letter is an error |
| Cipher.SplitInvertsJoin | src/infrastructure/security/cipher.py:40-44 | the split gives back the three joined fields if and only if the first two have no '$' |
| Cipher.DecimalRoundTrip | src/infrastructure/security/cipher.py:40-45 | a version number is read back from its text |
| Cipher.NumberTold | src/infrastructure/security/cipher.py:46 | digits count by ten, single underscores may stand between them |
| Cipher.SignTold | src/infrastructure/security/cipher.py:46 | a sign may stand before them |
| Cipher.EnvKeyProvider.Create | src/infrastructure/security/keys.py:36-43 | succeeds exactly for usable settings; each version is bound to the last legacy entry naming it, or else to the current key |
| Cipher.KeyTextTold | src/infrastructure/security/keys.py:36-43 | of several legacy entries for a version the last counts, the current key only where there is none |
| Cipher.ReadableIff | src/infrastructure/security/cipher.py:43-51 | a credential decrypts to its plaintext exactly under keyrings that bind its version to its key, and is an error under all others |
| Cipher.NeedsRotationIff | src/infrastructure/security/cipher.py:53-58 | rotation is wanted exactly when the version differs from the current one |
| Cipher.NeedsRotationTold | src/infrastructure/security/cipher.py:53-58 | any text wants rotation unless what stands before its first separator is the current version |
| Cipher.MalformedIsRefused | src/infrastructure/security/cipher.py:43-51 | fewer than three fields, no number, or a version without a key: one and the same error |
| Cipher.WellFormedIsOpened | src/infrastructure/security/cipher.py:43-51 | otherwise what the version's key opens, if it opens and is text |
| Cipher.EncryptRoundTrip | src/infrastructure/security/cipher.py:35-58 | what is encrypted decrypts to the same and needs no rotation |
| Cipher.ReadableIffBound | src/infrastructure/security/cipher.py:43-51 | all credentials can be read if and only if the keyring has the keys they were made with |
| Cipher.EveryCredentialReads | src/infrastructure/security/keys.py:36-51 | across any sequence of rotations that keep the bound keys, everything ever stored reads as it was stored |
| Cipher.ReencryptionSettles | src/infrastructure/security/cipher.py:35-58 | encrypting anew keeps the plaintext and wants no rotation |
| Cipher.RotationKeepsKeys | src/infrastructure/security/keys.py:36-43 | new settings keep all keys if and only if they still configure every old version with its old key |
| Layers.RepositoryAdaptersMapped | scripts/arch_check.py:48-82 | the two adapters are mapped to infrastructure, and nothing inside them elsewhere |
| Layers.MatchesByParts | scripts/arch_check.py:135 | a prefix matches exactly when its dotted parts are a prefix of the module's |
| Layers.ResolveLayer | scripts/arch_check.py:130-139 | the layer of the longest matching prefix, whatever the order of the table; None exactly if none matches |
| Layers.BestIsUnique | scripts/arch_check.py:130-139 | the longest matching prefix is unique |
| Layers.ResolveAdapter | scripts/arch_check.py:142-147 | the adapter package the module lies in |
| Layers.CheckImports | scripts/arch_check.py:264-324 | reports, in order, exactly the imports that break rule A, rule B or the table |
| Layers.CleanIffAccepted | scripts/arch_check.py:264-324 | nothing is reported if and only if every import is accepted |
| Layers.AllowedIffBelow | scripts/arch_check.py:92-101 | a layer may import itself and every layer below it, except that the entry point may not import the use cases |
| Layers.JudgedTold | scripts/arch_check.py:264-324 | when an import is reported and why: rule A, then rule B, then the layers; an unmapped module never |
| Layers.PackagesTold | scripts/arch_check.py:48-76 | the packages of the repository and their layers |
| Layers.ChainGoesDown | scripts/arch_check.py:92-101 | along accepted imports the rank never rises, and where it does not fall the layer stays |
| Layers.CyclesStayInOneLayer | scripts/arch_check.py:92-101 | every import cycle of mapped modules stays inside one layer |
| Layers.MappedIffCovered | scripts/arch_check.py:130-139 | a module has a layer if and only if some prefix of the table matches it |
| Layers.BridgeLetsThrough | scripts/arch_check.py:291-316 | from a use case or another adapter, through infrastructure outside the adapters, to an adapter: no import is reported |
| Layers.AdapterReachableIffBridge | scripts/arch_check.py:291-316 | among the modules of a project, an accepted chain from a use case or another adapter to an adapter exists if and only if some module is infrastructure outside the adapters |
| Layers.ChainsAroundTheRules | scripts/arch_check.py:48-82 | two such chains under the repository's own table |
| Layers.AdaptersAreReachedThroughABridge | scripts/arch_check.py:291-316 | use cases, and other adapters, reach an adapter only through a module of infrastructure that belongs to none |

## Left out

- AccountServices.Services.Request: a bare service call of a login is no request; its row changes are kept by whoever makes the call.
- VCenterReader.PageGenerator.Close: a database exception during a flush also drops the stream halfway; the collection is modelled on the whole stream and not connected to the generator.
- AdmissionGuard.EmptyAtRestUnlessLeaked: that a scheduled task begins is a premise, not a result.
- Concurrent administration: account operations are serial; only the start-up race and the collection guard are interleaved.
- Query.SearchVms: the database's collation is any ranking of texts, and the returned rows are any sequence its ORDER BY allows; SQL itself is not modelled.
- CollectionRun.AlwaysSound: the foreign key from machines to connections is kept as an invariant of the runs and not checked inside the upsert.
- InterleavedRuns.InterleavedRunsAreSerial: connection ids are drawn once; a connection removed under an open session refuses the commit, where the database's foreign key may make the removal wait instead.
- AdmissionGuard.InterleavingIsSerial: a session reads committed rows at each flush; lost updates between processes that do not share the running set are outside the model.
- VmRepository.Repository.UpsertVirtualMachines: vms of one batch are expected to carry the connection id passed in; the connection column of the index is proved to agree in that case only.
- Cipher.ReadableIff: decryption under another key is taken to fail always, where AES-GCM fails with overwhelming probability.
- Cipher.EnvKeyProvider.Create: the strict base64 decoding of configured keys is a parameter; `known_versions` is left out.
- Version texts with digits outside ASCII, and Python's limit on the length of an integer's text.
- Names with letters outside ASCII: stripping and lowercasing are modelled for ASCII.
- Bootstrap.OneAdministrator: the start-up without bootstrap settings, which creates nothing, is left out.
- Guest IP addresses, versions and tool versions of a machine: they are not stored in the table.
- `props_to_dict`, identifier helpers, enumeration mappers, retries, the stage runner and connection checks: they would add only easy members.
- The SCVMM reader, readiness checks and the read-only rule of the architecture script.
- `check_project`: files that do not parse, `__init__.py` files and imports written as `from src import x` are not seen by the script and not by the model.
- Password hashing and change, tokens, audit records, logging, timing, and process cancellation.
- The web interface, the agents and planned features of the documentation.
