# Forgery: verification model

Forgery is a daemon that stands between Forgejo instances and runners started on GitHub Actions. This project
models its concurrent protocols, its workflow payload rewriter and its caches in Dafny 4.11, and proves what they
are relied on for. `dafny verify dfyconfig.toml` checks everything.

## What is modelled

**The task lifecycle** (`Lifecycle*.dfy`) is one interleaved transition system: pollers, the task channel and its
dispatcher goroutine, one `HandleTask` and heartbeat per task, any number of southbound RPCs, the GC loop, the clock
and the shutdown signal. One step is one mutex-protected operation, one channel operation or one northbound call. A
`select` with several ready cases may take any of them, timers may fire whenever they are awaited, and every northbound
call may succeed or fail. `Slots`, `Tasks`, `MemStore`, `SessionManager`, `Poller`, `Runner`, `South`, `Collector` and
`Config` hold the same operations as classes and loops over real fields, over the same tables. `LifecycleStore` and
`LifecycleSessions` show that every run of the transition system is a run of the smaller systems in which collections and
session expiry are studied, and `LifecycleProgress` that none of its threads gets stuck.

**Re-registration** (`Reregister`, `Backoff`, `StateFile`, `StateRuns`, `NorthClient`): the generation counter, the
serialising mutex, the identity in memory and on disk and the failure backoff under any number of concurrent RPCs, and
the state file down to its file-system calls, with failures and crashes between any two of them.

**The payload rewriter** (`Expressions`, `Normalise`, `Checkout`, `Payload*`): the server-URL pattern as a leftmost
scanner proved equal to its declarative reading, the replacement of expressions in scalars, checkout injection, and the
pass over whole YAML trees and encoded payloads. `YamlNodes` has the in-place version on heap nodes, each method proved
to compute the tree function. `Codecs` stands for the YAML and JSON libraries.

**Indexes and caches** (`TaskTables`, `StoreTable`, `StoreGc*`, `SessionTables`, `SessionExpiry`, `Registry*`,
`LockOrder`): the two-map task store, its garbage collection step by step against registrations step by step, session
expiry, the lazily evicted token registry over runs of the whole daemon, and the order of the mutexes.

## Where the obvious claim is false

- A token leads to the task it was minted for only while no fetched id is one that an unconsumed token still leads to.
  `FetchKeepsIndexIff` gives the condition for one fetch, `UnsafeFetchMisroutes` continues every run with a fetch that
  breaks it to a session on the wrong task, and `SharedIdWitness` is such a run of two instances that share an id.
  Distinct live ids are enough (`DistinctIdsAreSafe`). The custody and single-use results need no such hypothesis.
- Once a `Save` has failed, `retryOnAuth` may reach `Register` with a newer identity in memory than the one its RPC
  presented. It does not if and only if every Save that failed since the RPC read the identity was of one already in
  memory by then (`RegisterReplacesRejectedIff`); `FailedSaveWitness` is a run in which it does.
- For a URL and a repository without '$', '{' and '}', normalisation leaves an expression behind in some scalar if and
  only if the URL fits inside one of the pattern's keys and white space around it; a colon in the URL is enough to rule
  that out (`NormalisationCompleteIff`, `ColonIsEnough`). `BareHostWitness` has the URL `github.` and the scalar.
  Configuration validation accepts such a URL, but registration at startup needs a scheme and fails on it.
- Rewriting twice differs from rewriting once exactly when normalising a `uses` value turns a step into a checkout step
  that still needs the input (`PassIdempotentIff`). `LateCheckoutWitness` is a whole payload, for every host, whose
  second rewrite differs. The comment at `internal/south/payload.go:296-298` calls the rewrite idempotent by
  construction because it always starts from the stored payload; the lemmas are about the stronger claim, a second
  application to its own output.
- A store collection can change what becomes of a registration in three ways. It deletes by id, so an id that comes back
  between scan and deletion loses a task that could still register (`ReturningIdWitness`). Removing a dead index entry
  matters when its id comes back later: without the collection the old token would have led to the new task
  (`RevivedTokenWitness`). And a registration that passed its deadline check just in time finds its token gone when it
  consumes it (`OvertakenWitness`). These are all: collections are invisible if and only if every deletion and every
  Store is safe, both conditions on the daemon's own run (`GcNeverChangesOutcomes`). With distinct ids only the third
  way is left (`DistinctCarefulIff`).
- A registered task can be collected: a task whose token was consumed in time but inspected before
  `MarkRunnerRegistered` is still Pending and past its deadline (`RegisteredCollectedWitness`). With distinct ids the
  deletion takes an accepted task exactly if its own token has left the index (`CollectedRegisteredIff`); if no
  inspection meets a registration between its deadline check and `MarkRunnerRegistered`, no registered task is collected
  and no outcome changes (`RegisteredNeverCollected`, `UndisturbedIsCareful`).
- Lazy eviction from the token registry is visible when a status is written over Terminal: `UpdateTask` sets Terminal, a
  lookup evicts, and `MarkDispatched` or `MarkRunnerRegistered` follows before the session ends. It is invisible if and
  only if no such write hits a task with an evicted, unexpired entry whose session is live (`LazyRegistryAgrees`).
  `LateDispatchWitness` is a run of the whole daemon with one task and one session; it takes no shared ids and no
  second session, only a runner that is done before `HandleTask` gets to `MarkDispatched`. `OneSessionIsSafe` names an
  order of events that excludes it.
- The comment at `internal/app/app.go:404` speaks of retained Terminal tasks; the store retains none, and the model
  follows the code.

## Conventions

Time is an integer clock that never goes back, in seconds. Registration tokens have 64 characters and generated session
tokens 32, and both generators return strings never used before, so the two kinds never collide. A Forgejo call is
a free choice of outcome. History fields of the transition systems (`births`, `fetched`, `sent`, `log`, `chain`, ...)
record what happened; they guide no step except the generators, which use `minted` to stay fresh.

## Model

| member | source | states |
|---|---|---|
| LifecycleSlots.SlotConservation | internal/slots/pool.go:45-62 | in every reachable state the slots in use are exactly those of pollers past Acquire, queued tasks, the dispatcher's task and HandleTasks before their Release; never more than the capacity; a poller with a task to send finds room in the channel |
| LifecycleSlots.ReleaseNeverNoOp | internal/slots/pool.go:57-62 | no step of any run takes Release's no-op branch |
| LifecycleSlots.OnlyReleaseFrees | internal/slots/pool.go:57-62 | and no step but a call of Release gives a slot back |
| LifecycleSlots.SlotsDrain | internal/app/app.go:252-256 | with the pollers stopped and nothing queued, the slots in use are those of live HandleTasks; none once these are gone |
| LifecycleSlots.ExitPathsRelease | internal/run/runner.go:119-285 | HandleTask keeps its slot through every step but the single release each exit path performs |
| LifecycleSlots.TasksInOrder | internal/app/app.go:246-256 | in every run HandleTask is started once for each sent task, in the order of sending; the rest is in the dispatcher's hands or queued in that order |
| LifecycleTokens.TokensSingleUse | internal/south/handler.go:128-251 | over any race of Register and one-job calls a registration token pays for at most one session, no session key is issued twice, and every session in the manager was paid for |
| LifecycleTokens.CreateTokens | internal/south/handler.go:145-150 | the step that creates a session spends a ticket nobody else holds and uses a new key |
| LifecycleTokens.DeadKeysStayDead | internal/south/handler.go:186-251 | a session key that has left the manager never comes back, and no RPC that starts later is accepted with it |
| LifecycleCustody.NoOrphanTasks | internal/run/runner.go:119-285 | every stored task is in the hands of a poller, the channel, the dispatcher or a HandleTask not yet leaving, or is about to be removed, or is registered with a live session, or was dropped by a poller on shutdown; without assuming distinct ids |
| LifecycleCustody.DrainCountsOnlyLiveTasks | internal/store/memstore.go:154-169 | at quiescence after a shutdown CountActive counts only registered tasks whose session is live and tasks a poller dropped |
| LifecycleCustody.ExitPathsRemove | internal/run/runner.go:126-262 | a HandleTask that starts to leave will remove the task, or has seen it registered or done |
| LifecycleCustody.ExitPathsOrder | internal/run/runner.go:140-157 | an exit path that has dropped the session still removes the task, or has removed it already |
| LifecycleCustody.SessionOwner | internal/run/runner.go:203-208 | the session HandleTask drops by its task's own token is that task's session |
| LifecycleRouting.ResolveUnique | internal/app/app.go:93-99 | with unique names the resolver leads from an instance's name back to its own client |
| LifecycleRouting.ResolveIff | internal/app/app.go:182-208 | a name resolves to a client if and only if that is the last one with the name |
| LifecycleRouting.ReportsReachOwner | internal/south/handler.go:360-374 | whatever is sent through a client (relayed update or log, heartbeat, failure report) carries an id that the same instance's poller fetched |
| LifecycleRouting.EveryTaskResolves | internal/run/runner.go:126-137 | with unique names no HandleTask takes the unknown-instance exit, and it reports through the client that fetched its task |
| LifecycleRouting.FetchKeepsIndexIff | internal/store/memstore.go:50-55 | storing a fetched task keeps every token leading to the task it was minted for if and only if no unconsumed token leads to the fetched id |
| LifecycleRouting.UnstoredIdIsFree | internal/store/memstore.go:50-55 | a fetched id different from all stored ids meets that condition |
| LifecycleRouting.UnsafeFetchMisroutes | internal/north/poller.go:97-107 | from every reachable state an enabled fetch that breaks the condition, of a task still able to register, goes on to a session opened on that task with a token minted for another |
| LifecycleRouting.DistinctIdsAreSafe | internal/store/memstore.go:50-55 | a run that never fetches the id of a task still stored meets the condition throughout |
| LifecycleRouting.SessionsActOnOwnTask | internal/south/handler.go:128-251 | under that condition every accepted RPC acts on the task whose registration token paid for its key, and no task gets a second session |
| LifecycleRouting.RegisterUninterrupted | internal/south/handler.go:128-153 | a Register that presents a live, unexpired, unconsumed token and is not interrupted opens a session on the task the index leads to |
| LifecycleRouting.SharedIdWitness | internal/store/memstore.go:33-37 | a run of two instances sharing an id in which the first task's token opens a session on the second's task |
| LifecycleDuties.CleaningExits | internal/run/runner.go:126-262 | in every run, when HandleTask has returned after an unknown instance, a failed dispatch, a startup timeout or a shutdown before registration, its task is not stored and the session it had is gone; and a failed dispatch or a timeout has been reported to the instance the task came from |
| LifecycleDuties.QuietExits | internal/run/runner.go:183-285 | in every run, a HandleTask that leaves because the task is done, or on shutdown after registration, touches neither store nor sessions nor tasks and reports nothing |
| LifecycleReports.OrphansAreReported | internal/app/app.go:412-443 | in every run, when the pass that expired a session is over, the session's task has been reported to the instance it came from, forced done, and removed unless another thread is about to |
| LifecycleReports.UpdateDecides | internal/south/handler.go:354-396 | in every reachable state an authenticated UpdateTask is refused exactly if the id is not its session's task or the instance does not take the report, the instance is told exactly for the right id, and clean-up starts exactly for an accepted terminal result |
| LifecycleReports.TerminalReportCleansUp | internal/south/handler.go:378-394 | in every run, when an UpdateTask accepted with a terminal result returns, the instance the task came from has been told, the task is done and not stored, and its session is gone |
| LifecycleReports.HeartbeatsRun | internal/run/runner.go:160-166 | in every reachable state a waiting HandleTask has a running heartbeat unless the daemon is shutting down, a leaving one has none, and a beat tells the instance the task came from |
| LifecycleReports.OnlyShutdownStops | internal/north/poller.go:46-119 | before the shutdown signal no poller and no GC loop has stopped, no task has been given up and no HandleTask is leaving for shutdown |
| LifecycleCalls.LiveKey | internal/south/handler.go:199-217 | a call with the key of a live session renews it and gets through in two steps |
| LifecycleCalls.RegisterAlone | internal/south/handler.go:128-179 | Register with a stored, unspent token up to and including its deadline, uninterrupted: the token is spent, the session exists, the task has its key, is Running and registered, and nothing else changes |
| LifecycleCalls.OneJobAlone | internal/south/handler.go:219-251 | any other call with such a token does the same under the token as key and is authenticated |
| LifecycleCalls.RefusedAlone | internal/south/handler.go:132-143 | a token that opens no task is refused and nothing changes |
| LifecycleCalls.AloneIsAdvanced | internal/south/handler.go:128-251 | these are runs of the daemon from any state |
| LifecycleProgress.HandlerCanReturn | internal/run/runner.go:119-285 | from every state HandleTask can return by its own steps, unless it waits for a registered runner of a task that is not done, with the daemon running |
| LifecycleProgress.HandlerStuckIff | internal/run/runner.go:265-284 | and exactly there it has no step at all |
| LifecycleProgress.PollerMoves | internal/north/poller.go:46-119 | in every reachable state a poller takes a slot exactly while there is one, gives up waiting for one exactly on shutdown, and every round and pause can end |
| LifecycleProgress.DispatcherMoves | internal/app/app.go:252-256 | a queued task can always be taken up and its HandleTask started |
| LifecycleProgress.CallsMove | internal/south/handler.go:128-396 | in every reachable state every unanswered southbound call has a next step, and each step brings it closer to its answer |
| LifecycleProgress.GcPassEnds | internal/app/app.go:403-444 | from every reachable state in which the GC loop has not ended its pass can end by its own steps, and then the next can begin |
| LifecycleReports.CreatedInThePast | internal/north/poller.go:97-107 | no stored task is younger than the clock, so no token outlives its time to live counted from its storing |
| LifecycleStore.DaemonIsStoreRun | internal/store/memstore.go:50-149 | every run of the daemon is a run of `StoreGc` with the same store, statuses, registrations under way and collections, so its results hold of the daemon |
| LifecycleSessions.DaemonIsSessionRun | internal/session/manager.go:99-180 | every run of the daemon is a run of `SessionExpiry` with the same session table, so its results hold of the daemon |
| Reregister.RegisterReplacesRejectedIff | internal/north/client.go:461-506 | when retryOnAuth reaches Register, everything put in memory since its RPC read the identity belongs to a Save that failed since; memory still holds the rejected identity if and only if every Save that failed since the read was of an identity in memory by then |
| Reregister.RegisterReplacesOnlyRejected | internal/north/client.go:461-506 | while no Save has failed, Register is reached only with the rejected identity in memory |
| Reregister.OneRunnerPerLostIdentity | internal/north/client.go:278-308 | Forgejo has issued exactly one runner per installed generation, per failed Save and per Register in progress, and no identity is ever replaced twice; while no Save has failed the replacements form one chain from the first identity |
| Reregister.RestartRestoresIdentity | internal/north/client.go:294-302 | when Register is about to succeed, and at rest while no Save has failed, the identity on disk is the one in memory |
| Reregister.FailedSaveWitness | internal/north/client.go:292-297 | a run with one failed Save in which a second RPC reaches Register over an identity it never presented |
| Reregister.FailedRegistrationsSpread | internal/north/client.go:486-501 | in any interleaving n consecutive failed re-registrations take at least the least span for n; the wait is 0 or between base and ceiling, and min(30*2^(n-1), 300) when all n were transient |
| Reregister.RetriesIffNewer | internal/north/client.go:461-506 | in every reachable state an RPC leaving the lock is tried again exactly if an identity newer than the one it was answered under has been installed |
| Reregister.ThreadsMove | internal/north/client.go:461-506 | whatever Forgejo and the disk answer, an RPC is held up by nothing but the lock, each step brings it closer to its answer, and the lock's holder is never held up |
| Reregister.FailureArms | internal/north/client.go:494-502 | an uninterrupted failure changes no identity and arms 300 seconds for a bad registration token, else 30 or twice the last wait, at most 300 |
| Reregister.SuccessInstalls | internal/north/client.go:278-308 | an uninterrupted success puts the issued identity in memory and on disk, raises the generation and resets the gate |
| Backoff.WaitBounds | internal/north/client.go:563-586 | the wait after a series of failures is 0 for none and between 30 and 300 otherwise |
| Backoff.TransientWait | internal/north/client.go:574-583 | after k consecutive transient failures the wait is min(30*2^(k-1), 300) |
| Backoff.AnyWait | internal/north/client.go:563-586 | whatever the mix of errors the wait is at least that |
| Backoff.BadTokenWait | internal/north/client.go:564-571 | after a bad registration token the wait is 300 seconds, whatever came before |
| Backoff.DoublingWait | internal/north/client.go:572-586 | after any other failure it is 30 seconds at first, then doubles up to 300 |
| Backoff.ArmedUntil | internal/north/client.go:545-604 | an armed gate opens after exactly its wait |
| Backoff.LeastSpanStep | internal/north/client.go:63-66 | one more failure adds that least wait to 30*(2^(n-1)-1) for n up to 5, to 450+300*(n-5) beyond |
| Backoff.SpanBound | internal/north/client.go:545-604 | failures spaced by the waits they arm span at least that long |
| NorthClient.Client.New | internal/north/client.go:199-207 | a state file that cannot be read or understood is fatal; a stored identity is restored as generation 1, otherwise there is none |
| NorthClient.Client.Register | internal/north/client.go:278-308 | succeeds exactly if an identity is issued and its Save goes through; then memory and disk agree on it, the generation rises and the backoff is reset; a failed Save leaves it in memory only; a refusal changes nothing |
| NorthClient.Client.BackoffRemaining | internal/north/client.go:545-555 | the time left until the armed moment, 0 if none is armed or it has passed |
| NorthClient.Client.NoteRegisterFailure | internal/north/client.go:563-586 | InvalidArgument with "registration token" in the message arms 300 seconds; anything else arms 30 seconds or twice the last wait, at most 300 |
| NorthClient.Client.RetryOnAuth | internal/north/client.go:461-517 | with any number of other registrations before this one takes the lock: registers exactly after Unauthenticated or PermissionDenied, under the same generation, and with the gate open; retries exactly after a registration of its own or another's; and arms the wait of its failure |
| StateFile.FileStore.Read | internal/state/state.go:139-155 | a missing file is no error; an unreadable or unparsable one and any version but 1 are |
| StateFile.FileStore.Load | internal/state/state.go:96-109 | the entry under the URL, none for a missing file or key, an error exactly when the file cannot be read or understood |
| StateFile.FileStore.Write | internal/state/state.go:160-184 | all five file-system calls succeed or the target stays as it was; after each call the target is the old file or the complete new one |
| StateFile.FileStore.Save | internal/state/state.go:113-133 | succeeds exactly if the file was understood and no file-system call failed; then the file decodes to version 1 with the old entries and the new one; an error leaves the file alone; at every crash point it is the complete old or the complete new one |
| StateFile.SurvivesIff | internal/state/state.go:160-184 | what a crash may leave of a file: all of it once synced, any prefix before |
| StateRuns.SavesSurvive | internal/state/state.go:113-133 | with any number of concurrent Saves, failing calls and crashes, the file holds the initial entries updated by every rename so far, and every Save that returned success is among those |
| StateRuns.FileChangesOnlyByRename | internal/state/state.go:160-184 | no step but the lock holder's rename changes the file, and that one installs a complete image with one entry changed |
| StateRuns.MalformedNeverOverwritten | internal/state/state.go:139-155 | a file that cannot be understood is never overwritten |
| StateRuns.LastSaveWins | internal/state/state.go:126 | the last renamed Save of a URL decides its entry |
| StateRuns.OthersKept | internal/state/state.go:111-112 | Saves of other URLs leave an entry alone |
| StateRuns.SavesMove | internal/state/state.go:113-184 | a Save is held up by nothing but the lock, whose holder can always move; each step, failing or not, brings it closer to its return |
| StateRuns.SaveAlone | internal/state/state.go:113-184 | an uninterrupted Save of an understood file whose calls succeed installs its image and returns success |
| StateRuns.FailureAborts | internal/state/state.go:113-184 | once one of its calls has failed, or it did not understand the file, a Save changes nothing more and returns an error |
| Expressions.MatchSound | internal/south/payload.go:147-148 | what the scanner finds at the front of a string is an expression of the pattern |
| Expressions.MatchComplete | internal/south/payload.go:147-148 | every expression of the pattern is found, with its key and full length, whatever follows it |
| Expressions.PatternKeys | internal/south/payload.go:147-148 | the pattern's alternatives are brace-free words none of which continues another |
| Expressions.SpaceCharacters | internal/south/payload.go:150-151 | the five characters the pattern's white space matches |
| Normalise.SkipIsSafe | internal/south/payload.go:191-194 | skipping scalars without an opening brace sequence changes no result |
| Normalise.ReplaceAllClean | internal/south/payload.go:175-200 | no replaceable expression survives, even where a replacement sits between fragments of one |
| Normalise.ServerBecomes | internal/south/payload.go:178-180 | with any white space and anything around it, each of the three server expressions becomes the URL |
| Normalise.ApiBecomes | internal/south/payload.go:181-182 | each of the three API expressions becomes the URL and `/api/v1` |
| Normalise.RepositoryBecomes | internal/south/payload.go:183-187 | the repository expression becomes URL, slash and repository, and stays while the repository is unknown |
| Normalise.OthersStay | internal/south/payload.go:150-151 | a scalar changes only if one of the seven expressions stands in it |
| Normalise.PlainText | internal/south/payload.go:191-194 | a scalar without a dollar sign stays as it is |
| Normalise.ContainsIff | internal/south/payload.go:192 | the cheap test is true exactly if the text stands somewhere in the scalar |
| Normalise.NormalisationCompleteIff | internal/south/payload.go:162-200 | for a URL and repository free of '$', '{', '}': no replaceable expression survives in any scalar if and only if the URL does not fit inside a key and surrounding white space |
| Normalise.ColonIsEnough | internal/south/payload.go:175-189 | a URL with a colon never fits inside a key |
| Normalise.EmbeddedSurvives | internal/south/payload.go:175-200 | for a URL that does, a scalar that betrays it |
| Normalise.BareHostWitness | internal/south/payload.go:175-200 | the URL `github.` fits, and a scalar with a server expression in front of server_url holds one afterwards |
| Normalise.NormalisationIdempotent | internal/south/payload.go:162-200 | a second pass over a scalar changes nothing |
| Normalise.ChangedIff | internal/south/payload.go:195-197 | the change flag is raised exactly for scalars that hold a replaceable expression |
| Checkout.HostAndRefIgnored | internal/south/payload.go:39-72 | the scheme, host and ref of a remote action never matter |
| Checkout.HostIgnored | internal/south/payload.go:39-72 | nor do scheme and host when there is no ref |
| Checkout.TwoSegments | internal/south/payload.go:61-71 | a two-segment path is a checkout exactly if it is actions/checkout |
| Checkout.CheckoutPathIff | internal/south/payload.go:61-71 | with any number of segments a path is a checkout exactly if it is actions/checkout, starts with actions/checkout/ or ends with /actions/checkout |
| Checkout.PlainUses | internal/south/payload.go:39-72 | without scheme and host, what stands before the ref decides |
| Checkout.PlainUsesBare | internal/south/payload.go:39-72 | the same without a ref |
| Checkout.NotRemoteRefused | internal/south/payload.go:41-43 | docker://, ./ and ../ are refused, whatever follows |
| Checkout.NoPathRefused | internal/south/payload.go:45-54 | so is a URL that ends with its host |
| Checkout.BlanksIgnored | internal/south/payload.go:40 | white space around the value does not matter |
| Checkout.BlankCharacters | internal/south/payload.go:40 | the 25 characters that count as white space there |
| Payload.WithInputSpec | internal/south/payload.go:269-281 | afterwards the first such input has the value, every other pair keeps its place, and the block differs exactly if the input was not set already |
| Payload.FindFirst | internal/south/payload.go:242-249 | a lookup yields the value of the first of the even children that is the key |
| Payload.AppendedWith | internal/south/payload.go:257-265 | a step without a with block gets one at its end, with the input |
| Payload.UpdatedWith | internal/south/payload.go:266-281 | a step with a with mapping differs in that mapping only, exactly if the input was not set already |
| PayloadInject.InjectionMeetsSpec | internal/south/payload.go:82-135 | after injection every checkout step whose with is absent or a mapping has the URL as its first server-URL input, all other pairs keep their places, everything else is as it was, and the tree differs exactly if some step does |
| PayloadInject.NewBlock | internal/south/payload.go:253-265 | a checkout step without with gets, as its last pair, a plain with key and a mapping of github-server-url to the URL |
| PayloadInject.NewInput | internal/south/payload.go:271-281 | in a with mapping the first github-server-url is replaced by a plain string with the URL unless it has that value, or a pair is added at the end |
| PayloadPass.StepFixedIff | internal/south/payload.go:104-120 | injection leaves a step alone exactly if it has nothing to inject |
| PayloadPass.InjectFixedIff | internal/south/payload.go:98-120 | injection leaves the tree alone exactly if it leaves every step alone |
| PayloadPass.TreesCompleteIff | internal/south/payload.go:222-236 | normalisation leaves no replaceable expression in any value of any tree if and only if the URL does not fit inside a key and surrounding white space |
| PayloadPass.PassIsClean | internal/south/payload.go:162-236 | so for such a site no replaceable expression is left in any value of a payload after a pass |
| PayloadPass.TreeFixedIff | internal/south/payload.go:222-236 | normalisation leaves a tree alone exactly if no value of it holds such an expression |
| PayloadPass.RewriteTwice | internal/south/payload.go:222-236 | normalising a normalised tree changes nothing |
| PayloadPass.CheckoutSettles | internal/south/payload.go:299-310 | a checkout step needs no further injection after one pass, even if normalisation rewrites its `uses` |
| PayloadPass.SecondInjectIff | internal/south/payload.go:299-310 | a second injection finds nothing to do exactly if normalisation made no step a checkout step in need of one |
| PayloadPass.PassIdempotentIff | internal/south/payload.go:299-310 | the whole pass is idempotent on a payload under exactly that condition |
| PayloadPass.PassIdempotent | internal/south/payload.go:299-310 | so it is when no `uses` value holds a server-URL expression |
| PayloadWitness.LateCheckoutWitness | internal/south/payload.go:299-310 | for every host, a well-formed payload on a site for which normalisation is complete whose second rewrite differs from its first |
| PayloadWitness.LateStep | internal/south/payload.go:104-111 | its step becomes a checkout step only by normalisation |
| PayloadFrame.PassFramed | internal/south/payload.go:222-317 | for every URL and repository: outside the with blocks of checkout steps only scalar values that held a replaceable expression differ; kinds, tags, keys, order and lengths are kept |
| PayloadBytes.RewritePayloadDoes | internal/south/payload.go:299-317 | for every round-tripping codec, a payload whose YAML root is a mapping is handed out as bytes that decode to the document with the whole pass over its root, as long as the encoder copes |
| PayloadBytes.RewritePayloadPassesThrough | internal/south/payload.go:300-311 | every other payload, and any payload for an empty URL, is handed out as it is |
| PayloadBytes.RewritePayloadKeepsBytes | internal/south/payload.go:312-314 | a payload with nothing to do keeps its bytes |
| PayloadBytes.RewrittenPayload | internal/south/payload.go:284-317 | in the payload handed out no value holds a server-URL expression, and every checkout step whose with is absent or a mapping has github-server-url set to the instance |
| PayloadBytes.RewritePayloadIdempotent | internal/south/payload.go:299-317 | for every codec that round-trips, rewriting a rewritten payload returns the same bytes, when no `uses` value holds a server-URL expression |
| YamlNodes.Node.MappingValue | internal/south/payload.go:240-247 | the value node of the first scalar key, null exactly if there is none |
| YamlNodes.Node.RewriteScalarValues | internal/south/payload.go:222-236 | in place, the node spells the rewritten tree afterwards, and the flag says whether it differs |
| YamlNodes.Node.SetWithInput | internal/south/payload.go:253-282 | in place, the step spells the specified one, and the result says whether it differs |
| YamlNodes.Node.InjectStep | internal/south/payload.go:104-115 | the body of the step loop on the heap |
| YamlNodes.Node.InjectSteps | internal/south/payload.go:104-116 | the step loop on the heap injects into every step |
| YamlNodes.Node.InjectEachJob | internal/south/payload.go:95-117 | the job loop on the heap visits every second child, the values |
| YamlNodes.Node.Inject | internal/south/payload.go:93-120 | in place, the root spells the injected tree, and the flag says whether it differs |
| StoreTable.StoreIsATable | internal/store/memstore.go:50-149 | at every point of any sequence of operations, lookups, consumptions, removals and collections that follow are answered as by one table of records with a consumed flag, if and only if every Put is safe |
| StoreTable.StoreInStepIff | internal/store/memstore.go:50-149 | and the two maps stay in step with the table if and only if every Put is safe |
| StoreTable.PutRefinesIff | internal/store/memstore.go:50-55 | a Put keeps maps and table in step if and only if it replaces no record with another unconsumed token and no other record holds its token |
| StoreTable.LivePutsAreSafe | internal/store/memstore.go:50-55 | Puts are safe when no id is stored that is stored already and no token is stored twice |
| StoreTable.StepRefines | internal/store/memstore.go:59-149 | every single operation keeps them in step and gives the same answer |
| StoreTable.IndexNeverDangles | internal/store/memstore.go:90-104 | after any sequence of operations every index entry points at a stored task, with no hypothesis |
| StoreGc.GcNeverChangesOutcomes | internal/store/memstore.go:119-149 | for every run with collections, registrations made or under way at any point of it are accepted, by the same calls and for the same tasks, as in the run without the collections, if and only if every deletion is safe (no token it takes is held by a registration under way or leads to a task stored since the scan and within its deadline) and every Store is (no token a deletion took leads to its id, unless the task is past its deadline) |
| StoreGcIds.RegisteredNeverCollected | internal/store/memstore.go:119-149 | with distinct ids and no inspection between a registration's deadline check and MarkRunnerRegistered, whatever a deletion takes is past its deadline, unregistered and never accepted |
| StoreGcIds.CollectedRegisteredIff | internal/store/memstore.go:119-149 | with distinct ids a deletion takes only tasks past their deadline, and one whose registration was accepted exactly if the task's own token is no longer in the index |
| StoreGcIds.DistinctCarefulIff | internal/store/memstore.go:119-149 | with distinct ids the collections of a run are harmless if and only if no deletion takes a token that a registration under way holds |
| StoreGcIds.UndisturbedIsCareful | internal/store/memstore.go:119-149 | with distinct ids and no inspection between a registration's deadline check and MarkRunnerRegistered, all of them are |
| StoreGc.CollectedLapsedIff | internal/store/memstore.go:119-149 | with any ids, a deletion takes only tasks past their deadline if and only if the tasks stored under doomed ids since the scan are |
| StoreGc.DeleteKeepsDecisionsIff | internal/store/memstore.go:139-148 | in every reachable state a deletion leaves all registrations, to come and under way, decided as before if and only if it is safe |
| StoreGc.UnsafeStepDiverges | internal/store/memstore.go:139-148 | after the first deletion or Store that is not safe, some registration comes out differently from the run without collections |
| StoreGcWitness.ReturningIdWitness | internal/store/memstore.go:139-148 | a run in which an id comes back between scan and deletion and its registration is lost |
| StoreGcWitness.RevivedTokenWitness | internal/store/memstore.go:97-104 | a run in which an id comes back after a deletion and only without the collection is its old token accepted, for the new task |
| StoreGcWitness.OvertakenWitness | internal/south/handler.go:132-147 | a run with one task whose registration passes the deadline check and then loses its token to a collection |
| StoreGcWitness.RegisteredCollectedWitness | internal/south/handler.go:145-153 | a run with one task that is accepted, registered, Running and collected |
| StoreGc.SimDecides | internal/south/handler.go:132-147 | every registration, to come or under way, is decided the same way with and without the entries collections removed |
| MemStore.Store.PutPending | internal/store/memstore.go:50-55 | both maps get the task's entry |
| MemStore.Store.GetByRegToken | internal/store/memstore.go:59-72 | the two-step lookup answers as the abstract store does |
| MemStore.Store.MarkRegTokenConsumed | internal/store/memstore.go:78-86 | true exactly for the caller that takes the token out |
| MemStore.Store.RemoveLocked | internal/store/memstore.go:97-104 | the task goes, with every token leading to it and no other |
| MemStore.Store.Collect | internal/store/memstore.go:120-128 | every stored task once, in some order |
| MemStore.Expired | internal/store/memstore.go:130-137 | exactly the Pending tasks past their own TTL |
| MemStore.Store.GC | internal/store/memstore.go:119-149 | removes exactly those and the tokens leading to them |
| MemStore.Store.CountActive | internal/store/memstore.go:154-169 | the number of stored tasks that are not Terminal |
| SessionManager.Manager.CreateWithToken | internal/session/manager.go:99-115 | the session exists under its token and the task knows the token |
| SessionManager.Manager.Touch | internal/session/manager.go:132-141 | renews exactly a live session, in place |
| SessionManager.Manager.Expire | internal/session/manager.go:168-180 | removes and returns, each once, exactly the sessions silent for longer than maxAge |
| SessionExpiry.ActiveNeverExpired | internal/session/manager.go:132-180 | a session whose calls are never more than maxAge apart, and which nobody removes, is there for every one of them |
| SessionExpiry.SilentIsGone | internal/session/manager.go:168-180 | silent since t, with passes at most g apart, a session is gone by t + maxAge + g |
| SessionExpiry.PassIsExact | internal/session/manager.go:168-180 | a pass splits the table by that age and loses nothing |
| Tasks.AnyCalls | internal/store/store.go:109-172 | over any sequence of calls each signal hands out one channel only, closed exactly if the matching mark has happened, no close repeated; the status is the last written |
| Tasks.TaskCtx.MarkDone | internal/store/store.go:127-131 | the done latch is closed, its channel the one already handed out |
| Tasks.TaskCtx.MarkRunnerRegistered | internal/store/store.go:109-114 | the registered latch is closed, its channel the one already handed out, the status Running |
| Slots.Pool.Acquire | internal/slots/pool.go:45-52 | takes a slot only with room, fails only on a done context, waits exactly when neither is the case |
| Slots.Pool.Release | internal/slots/pool.go:57-62 | gives one slot back, none on an empty pool |
| Registry.DistinctSpec | internal/south/proxy.go:239-258 | each non-empty candidate token is there once, earlier candidates first |
| Registry.RuntimeTaskTokens | internal/south/proxy.go:239-258 | exactly the non-empty ones among the context's token and gitea_runtime_token and the secrets GITEA_TOKEN and GITHUB_TOKEN, each once, in this order of precedence |
| Registry.TokenRegistry.PutTaskTokens | internal/south/proxy.go:193-205 | each of these tokens leads to the task's entry for 24 hours from now, other entries stay |
| Registry.TokenRegistry.Lookup | internal/south/proxy.go:210-223 | a live entry is returned and kept, a dead one evicted and reported as unknown |
| RegistryRuns.LazyRegistryAgrees | internal/south/proxy.go:193-223 | over every run of the daemon, with lookups and fetches anywhere in between: at every point every lookup answers what a registry that never evicts would, if and only if no MarkDispatched or MarkRunnerRegistered takes a task out of Terminal while an evicted entry of it is unexpired and its session live |
| RegistryRuns.TerminalGivesWayIff | internal/store/store.go:99-113 | of all steps of the daemon exactly MarkDispatched and MarkRunnerRegistered take a task out of Terminal |
| RegistryRuns.FetchedIff | internal/south/handler.go:301-317 | tokens are stored only by an authenticated FetchTask, for its session's own task and instance and for 24 hours |
| RegistryWitness.LateDispatchWitness | internal/run/runner.go:160 | a run of the daemon with one task and one session in which a lookup after the report and before MarkDispatched makes the two registries differ |
| RegistryOrder.OneSessionIsSafe | internal/south/handler.go:381-386 | in runs of the daemon with safe fetches, MarkDispatched before the first session of a task, and nobody authenticated by a session before its registration is through, nothing is ever written over Terminal and lazy eviction is invisible |
| Runner.Runner.HandleTask | internal/run/runner.go:119-285 | alone: every exit gives the slot back once; exactly the exits that may still own the task remove it and its session; a failure is reported exactly on a failed dispatch and on the timeout |
| Runner.Runner.AwaitRegistration | internal/run/runner.go:183-261 | phase 1 ends by done, registration, timeout or shutdown, whichever ready case is taken, each with its own effects |
| Runner.Runner.AwaitDone | internal/run/runner.go:265-284 | phase 2 ends only by done or shutdown |
| Poller.PollOnce | internal/north/poller.go:56-119 | alone: a slot is kept exactly for a task handed over or waiting to be, an error or empty answer gives it back, and the task is stored first and stays stored when given up on shutdown |
| South.Handler.Claim | internal/south/handler.go:132-147 | yields the task exactly for a stored, unconsumed, unexpired token, and consumes it |
| South.Handler.Register | internal/south/handler.go:128-179 | alone: accepted exactly for such a token; then token spent, session created, task marked; a refusal changes nothing |
| South.Handler.Authenticate | internal/south/handler.go:186-251 | alone: a live session is renewed, otherwise an unspent registration token becomes the session key, otherwise nothing changes |
| South.Handler.UpdateTask | internal/south/handler.go:354-396 | alone: the id must be the session's own, the report goes to the owning client, and only an accepted terminal one cleans up |
| South.Handler.FetchTask | internal/south/handler.go:317 | the registry learns the task's tokens |
| Collector.Bury | internal/app/app.go:412-443 | every expired session whose instance resolves has its task's id reported to that client, once, in the order of the sessions, and nothing else is reported; every task is forced done and removed |
| Collector.GcOnce | internal/app/app.go:403-444 | one pass: the overdue Pending tasks go, exactly the silent sessions go, and their tasks are reported exactly as far as their instances resolve, forced done and removed |
| Config.Validate | internal/config/config.go:249-314 | each complaint is made exactly for the setting it is about; there is none exactly for acceptable settings |
| Config.AcceptableIff | internal/config/config.go:249-314 | these are the settings with all required fields, no negative value and pairwise different instance names |
| Config.CheckInstances | internal/config/config.go:275-307 | the loop reports exactly the repeated names, each with the closest earlier holder |
| Config.ValidatedNamesRoute | internal/config/config.go:273-286 | in acceptable settings every instance's name resolves to that instance |
| Config.BuildResolver | internal/app/app.go:182-208 | the map built by the loop answers as the resolver of the transition system |
| Config.MaxGaStartupTimeout | internal/app/app.go:359-367 | the largest timeout, 0 if none is positive |
| Config.SessionMaxAge | internal/app/app.go:384-386 | at least twice every instance's timeout, and no more |
| LockOrder.ScriptsOrdered | internal/south/proxy.go:210-223 | every operation takes its locks in rank order and ends holding none |
| LockOrder.LookupTakes | internal/south/proxy.go:210-223 | a registry lookup takes the registry lock, then the task's, then the sessions', as far as it gets |
| LockOrder.RecoverTakes | internal/north/client.go:461-604 | the locked part of retryOnAuth takes the gate's lock, the identity's, the file's and the gate's again, as far as it gets |
| LockOrder.NoCyclicWait | internal/north/client.go:136-140 | in no reachable state, with any number of threads, do threads wait for each other's locks in a circle |
| LockOrder.StepHolds | internal/south/proxy.go:210-223 | in the model a lock is held from being taken to being given back, and only by its thread |

## Left out

- Network, TLS, HTTP/2, Connect/gRPC, the reverse proxy body, the health server, logging, signals and `main`: I/O without a property to prove.
- The dispatcher's `Trigger` with its retries: a free choice of success or failure.
- YAML, JSON and TOML text, protobuf cloning and the base64 step of `proxyToken`: abstract codecs that round-trip (`Codecs`), node trees otherwise; aliases are leaves.
- The regular-expression engine in general: only the one pattern, as a leftmost scanner.
- The endless loops around `Poller.PollOnce` and `Collector.GcOnce`, and those of the dispatcher goroutine, `StartHeartbeat` and `drainTasks`: they end only with the daemon or with a timer, and exist as steps of `Lifecycle`.
- Startup order in `Run`, apart from the resolver map and the GC parameters.
- `FetchTask`'s choice of instance and repository for the rewrite: `Payload` takes both as parameters.
- Config defaults, label splitting, `stripContainerMapping`, git path matching, header token extraction, log prefixes: straight-line string code on which none of the protocols depends.
- The transport cache mutex of the reverse proxy and the logger's own locks: never held together with another lock of `LockOrder`.
- Durability of a rename itself across a power loss: `StateFile` lets a crash take unsynced contents, not a completed rename.
- "At most one terminal report per task" and "every task finishes": the races in the code do not guarantee them.
- Wrap-around of int64 ids, of the generation counter and of durations: unbounded here.
- Runner.Runner.HandleTask: the contract is that of a run without interference; order and interleaving of its effects are in `Lifecycle`.
- Runner.Runner.AwaitRegistration: phase 1 without interference, as above.
- Runner.Runner.AwaitDone: phase 2 without interference, as above.
- Poller.PollOnce: one round without interference; the races are in `Lifecycle`.
- South.Handler.Register: without interference; races between handlers are in `Lifecycle`.
- South.Handler.Authenticate: without the race between Lookup and Touch, which is a branch of `Lifecycle`.
- South.Handler.UpdateTask: without interference during its clean-up, whose four steps are separate in `Lifecycle`.
- Collector.Bury: without interference; the same loop is stepwise in `Lifecycle`.
- Collector.GcOnce: without interference, as above.
- RegistryRuns.LazyRegistryAgrees: takes one registry lookup as one step; its reads of the clock, the status and the session are not interleaved.
- LockOrder.ScriptsOrdered: the scripts list the locks each operation takes; that they are complete is read off the code, not proved.
- MemStore.Store.GC: without interference between its two critical sections, which are separate steps in `StoreGc` and `Lifecycle`.
