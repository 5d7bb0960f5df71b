# A verified model of leasepin

leasepin is a lock service: named locks are granted as leases with a deadline and a fencing token,
the table is saved to one state file before a grant is answered, and the `withlock` wrapper runs a
command for as long as its lease lasts. What it promises is about whole runs, through failing disks,
lost replies, crashes and restarts. This project models four layers and proves that they compose.

| layer | modules |
|---|---|
| the lock table | `Leases`, `LockState`, `Snapshots`, `TableSpec` (the pure transition system), `Answers` (what it answers and does, from the lock's state alone), `Table` (the mutable table, proved to follow it), `Listings`, `EagerTable` |
| the state file | `Store` (Save as single system calls, Load), `Disk` (Save as the program runs it, proved to follow it) |
| the client | `Wire`, `WaitLoop`, `WithLock`, `Heartbeat` |
| the whole system | `Fence`, `System` (the state machine), `SystemInvariant`, `Safety`, `Restarts`, `Exclusion`, `ConstantTtl`, `Runners` |

How the pieces fit:

- A table call is split where the persist hook is called. `TableSpec.Decide` is what happens before,
  with the first clock reading; then every lock is pruned at the second clock reading and the snapshot
  of the result goes to the hook; `TableSpec.Finish` is what happens after, when the hook has failed or
  not. `Table.LockTable` changes records in place, and each method's postcondition is the step of
  `TableSpec`.
- `System` runs the same two halves with the system calls of `Store.SaveStep` in between, one label
  each. Crashes, power losses, client writes and the passing of time may come between any two labels.
  A run is any sequence of labels that are possible when they come; clock readings are unconstrained
  except where a theorem says otherwise.
- The setting `power` says whether power losses occur. If they do, every directory sync is taken to
  succeed, and the state directory to have been durable in its parent before the first server started:
  `Store.NilIsDurableIff` shows that a nil return of Save needs both, and nothing else.
- Times are nanoseconds as unbounded integers. Tokens are 64-bit and wrap as in the source. Strings
  are sequences of bytes. The clock, the hook's verdict, the outcome of each system call, the replies a
  client gets and the behaviour of the child are arguments.

Three results sit on top. `Safety.FencingEndToEnd` needs no assumption about clocks.
`Exclusion.MutualExclusion` needs one monotone clock, renewals that never shorten a deadline and
clients that stop before they release; `ConstantTtl.ConstantRunIsTimely` derives the middle one from a
constant TTL, and `Runners.RunnersExclude` carries it over to what withlock's event loop believes.
`EagerTable.LazyRefinesEager` shows that lazy expiry cannot be observed.

## Model

| member | source | states |
|---|---|---|
| Safety.FencingEndToEnd | examples/fenced-writer.sh:21-31 | In every run, with any clocks, failing hooks, crashes, power losses and restarts, the accepted writes of a lock carry non-decreasing tokens, writes under one token come from one grant, and after a later grant's write no earlier grant's write is accepted. |
| Safety.WriteAcceptedIff | docs/protocol.md:31-39 | In every reachable state the resource accepts a grant's write if and only if no write of a later grant of that lock was accepted before. |
| Safety.DurableBeforeVisible | docs/protocol.md:20-27 | In every reachable state every token ever returned, in any lifetime, is at most the floor of every file a restart might find; the floor of the file in place is at most the one in memory; grants of a lock strictly increase. |
| Safety.MemoryAndDiskAgree | internal/lease/table.go:244-249 | Between calls a lease in memory has the same holder and token in its disk record, and its token is the floor. |
| Safety.SuccessfulCallSavesEverything | internal/lease/table.go:244-249 | After a call whose hook succeeded, the file is the snapshot of the whole table and nothing else can come back, so earlier changes that were not durable are now. |
| Safety.ServerCanAlwaysRestart | internal/cli/commands.go:40-51 | Whatever any crash or power loss leaves at the state path is accepted by Load and Restore, with the floors intact. |
| Safety.SystemCallsAreTableCalls | internal/lease/table.go:78-118 | A request, the system calls of its persist with anything clients and the clock do in between, and its return are one call of the table with Save's result as the hook's verdict: same table, same grants and promises, and on disk the offered snapshot or the old file; a call that is not persisted ends with its request. |
| Safety.PersistLeavesTableAlone | internal/lease/table.go:244-249 | The system calls of a persist change neither the table nor the pending reply nor the snapshot being saved. |
| Safety.FreeLockCanBeGranted | internal/lease/table.go:96-117 | From every reachable state between calls a lock that is not held can be granted, under the floor plus one. |
| SystemInvariant.RunKeeps | internal/lease/table.go:18-22 | Every state of every run shorter than 2^63 labels satisfies the invariants between memory, disk, grants and resource. |
| SystemInvariant.ImagesDuringSave | internal/store/store.go:1-6 | In the middle of a persist, anything a restart might find is an older readable file or the complete new one, covers all grants, and is not ahead of memory. |
| SystemInvariant.GoodImageBoots | internal/cli/commands.go:40-51 | A file that satisfies the invariant boots into a legal table with the same floors and the same owners. |
| SystemInvariant.ReturnSuccessKeeps | internal/lease/table.go:110-117 | Returning after a successful persist, with the reply sent, keeps the invariant. |
| SystemInvariant.ReturnFailureKeeps | internal/lease/table.go:110-116 | Returning after a failed persist (burned token, kept extension, kept release) keeps the invariant. |
| SystemInvariant.RestartKeeps | internal/lease/snapshot.go:62-103 | Load and Restore after any crash keep the invariant. |
| Exclusion.MutualExclusion | internal/lease/table.go:96-118 | With a monotone clock and renewals that never shorten, no two grants of a lock are both promised, to clients that have not stopped, deadlines still in the future, whatever fails or is lost. |
| Exclusion.RunBacks | internal/lease/snapshot.go:32-53 | In every such run each live promise is covered by the lease in memory and by every file a restart might find. |
| Exclusion.BootBacks | internal/lease/snapshot.go:80-96 | A restart keeps every promise the file backs, to the millisecond. |
| Exclusion.UnheardRenewIsSafeIff | internal/lease/table.go:125-128 | A Renew whose hook failed, or whose reply was lost, keeps the lock for its caller until the old deadline if and only if the renewal did not shorten it. |
| Exclusion.ShorterRenewalBreaksExclusion | internal/lease/table.go:152-157 | A shorter renewal that fails, or whose reply is lost, makes two clients believe in the lock at once. |
| ConstantTtl.ConstantRunIsTimely | internal/cli/withlock.go:185-188 | If every renewal uses the lease's own TTL in whole milliseconds, no renewal in the run shortens, through crashes and restarts. |
| Runners.RunnersExclude | internal/cli/withlock.go:171-205 | In every such run two runners with the same lock that are both before the deadline they believe in, each having heard only replies of the run, work under one and the same grant. |
| Runners.BelievedWasPromised | internal/cli/withlock.go:171-189 | The deadline a runner believes in is always one the server promised these credentials in the run. |
| Runners.CarriesOnOnlyConfident | internal/cli/withlock.go:191-199 | After a failed heartbeat the event loop carries on if and only if the error is transient and the runner is still before its believed deadline. |
| EagerTable.LazyRefinesEager | internal/lease/table.go:237-242 | Under a monotone clock every sequence of calls gives the same replies and hook snapshots as a table that drops each lease at its deadline. |
| EagerTable.CallSimulates | internal/lease/table.go:237-242 | One call: same reply, same snapshot, and the two tables stay indistinguishable. |
| Answers.AcquireAnswers | internal/lease/table.go:62-118 | Invalid if and only if the name, the holder or the TTL (against both bounds) is illegal; held if and only if somebody's deadline is still to come, naming that holder and deadline; granted if and only if free and saved, with every field of the lease; not durable if and only if free and refused by the hook. |
| Answers.RenewAnswers | internal/lease/table.go:129-159 | Invalid, gone, renewed or not durable, each if and only if, from who has the lease at that clock reading, the bounds and the hook; the renewed lease keeps holder, token and acquisition time and ends one TTL from now. |
| Answers.ReleaseAnswers | internal/lease/table.go:164-189 | Invalid, gone, released or not durable, each if and only if, from who has the lease at that clock reading and the hook. |
| Answers.ReadersAnswer | internal/lease/table.go:201-235 | Get and List report the floor and, exactly until its deadline, the lease; HeldCount is the number of locks listed. |
| Answers.OthersUntouched | internal/lease/table.go:237-249 | No call changes what anybody can see later of any lock but its own. |
| Answers.RefusalsChangeNothing | internal/lease/table.go:78-99 | A call answered invalid, held or gone changes nothing anybody can see later, on any lock. |
| Answers.AcquireEffect | internal/lease/table.go:96-117 | A grant holds the lock exactly until its deadline; a refused one leaves it free with the number used up. |
| Answers.RenewEffect | internal/lease/table.go:152-158 | A renewal moves the deadline and nothing else, saved or not. |
| Answers.ReleaseEffect | internal/lease/table.go:184-188 | A release frees the lock and keeps its floor, saved or not. |
| Answers.HookIsGiven | internal/lease/snapshot.go:41-60 | The hook is called for changes only and is given every floor and every live lease, field by field to the millisecond; only a grant it refuses is then withdrawn. |
| TableSpec.CallKeeps | internal/lease/table.go:10-16 | Every call keeps names and holders legal, keeps live tokens at (or at most at) their floors, and moves floors up by at most one. |
| TableSpec.GrantIsOffered | internal/lease/table.go:74-77 | A grant is returned only after a snapshot with its token as the floor was saved. |
| TableSpec.OffersRestorable | internal/lease/snapshot.go:41-60 | Every snapshot offered to the hook by a good table can be restored. |
| TableSpec.GrantRaisesFloorIffNoWrap | internal/lease/table.go:100 | A granted token exceeds the floor before it if and only if the counter was not at its 64-bit maximum. |
| TableSpec.BurnedInThisLifetime | internal/lease/table.go:110-116 | After a refused grant every later grant in the same lifetime is above the burned number. |
| Restarts.BurnedReturnsIff | internal/lease/table.go:110-116 | Whatever file a restart finds after whatever run, the new server may grant a burned number if and only if it is above the floor in that file. |
| Restarts.BurnedReturnsAtOnce | internal/lease/table.go:110-116 | A number just burned can always be granted after a crash. |
| Restarts.BurnLastsOnceSaved | internal/lease/table.go:244-249 | Once any later call has been saved, no file a restart may find lets a burned number be granted. |
| TableSpec.BurnedTokenGrantedAfterCrash | internal/lease/table.go:110-116 | An example: from an empty table a burned number is granted for the first time after a crash. |
| TableSpec.GoneIsPermanent | internal/lease/table.go:142-151 | Once Renew or Release answered Gone for a token at or below the floor, every later Renew or Release with those credentials does, over any calls in between and any clock. |
| TableSpec.GoneAboveFloorCanReturn | internal/lease/table.go:178-183 | For a token above the floor of a free lock some sequence of calls makes the same credentials own it, so Gone is not permanent there. |
| TableSpec.GoneReturnsIff | internal/lease/table.go:142-151 | Credentials that do not own a lock may come to own it within the lifetime if and only if their token is above its floor. |
| Restarts.LeaseReturnsIff | internal/lease/snapshot.go:67-103 | Whatever file a restart finds after whatever run, credentials hold the lock at a time if and only if that file has their lease with a later deadline, whatever was released or refused in memory. |
| Restarts.FailedReleaseReturnsUntil | internal/lease/table.go:184-187 | A Release whose hook failed is undone by a crash and restart: the lease is back exactly until the deadline in the file. |
| Restarts.BootSucceedsIff | internal/cli/commands.go:40-51 | A server comes up if and only if there is no state file or a complete one of this schema with legal names and holders, and then with exactly its contents. |
| Restarts.UnusableFileStopsService | internal/cli/commands.go:40-51 | With an unusable file in place the service stays down and grants nothing, whatever else happens to it short of a power loss. |
| TableSpec.FailedReleaseReturnsAfterCrash | internal/lease/table.go:184-187 | An example of this, from an empty table. |
| Snapshots.RestartRefines | internal/lease/snapshot.go:32-60 | The table restored from a snapshot has the same floors and holds a lock at a later time if and only if the original's deadline is in a later millisecond, for the same holder and token: authority is never added and lost at most one millisecond early. |
| Snapshots.SnapshotOfRestore | internal/lease/snapshot.go:41-103 | The snapshot of a restored table is the one it came from, with the records whose deadline has come cut to their floor. |
| Snapshots.RoundTripSettles | internal/lease/snapshot.go:41-103 | A further round trip at the same time changes nothing. |
| Snapshots.RestoreSelfHeals | internal/lease/snapshot.go:79-86 | From any accepted file no lease ends up above its floor and no floor is lowered. |
| Snapshots.RestoreAcceptsIff | internal/lease/snapshot.go:67-103 | Restore refuses a nil snapshot, a foreign schema version, an illegal name or holder, and nothing else; each floor becomes the larger of floor and token, and every field of a lease is that of its record. |
| Snapshots.WrittenIsRestorable | internal/lease/snapshot.go:67-103 | Restore accepts every snapshot this code writes and reproduces its floors. |
| Snapshots.HolderMarksLease | internal/lease/snapshot.go:80 | The non-empty holder test recovers exactly the leases that were present. |
| Table.LockTable.Acquire | internal/lease/table.go:78-118 | New state, reply and offered snapshot are those of the specification, including the burned token. |
| Table.LockTable.Renew | internal/lease/table.go:129-159 | The same, the extension being kept when the hook fails and the reply being taken before the hook prunes. |
| Table.LockTable.Release | internal/lease/table.go:164-189 | The same, the release being kept when the hook fails. |
| Table.LockTable.Get | internal/lease/table.go:201-218 | Reports the lock as the specification does and prunes only that lock. |
| Table.LockTable.List | internal/lease/table.go:222-235 | Returns the held locks once each, in ascending byte order of their names, and prunes every expired lease. |
| Table.LockTable.HeldCount | internal/lease/snapshot.go:107-119 | Returns the number of held locks and prunes every expired lease. |
| Table.LockTable.SnapshotLocked | internal/lease/snapshot.go:41-60 | Prunes the whole table in place and returns its encoding. |
| Table.LockTable.TakeSnapshot | internal/lease/snapshot.go:35-39 | The same, as a call of its own. |
| Table.LockTable.PersistLocked | internal/lease/table.go:244-249 | Hands the hook a snapshot of the pruned table; without a hook changes nothing. |
| Table.LockTable.PruneLocked | internal/lease/table.go:238-242 | Clears one expired lease and nothing else in the table. |
| Table.LockTable.Restore | internal/lease/snapshot.go:67-103 | Succeeds if and only if every record is usable; replaces the contents then, and leaves them alone otherwise. |
| Table.LockTable.constructor | internal/lease/table.go:34-44 | A new table is empty, with the default TTL bounds. |
| Table.LockTable.SetTTLBounds | internal/lease/table.go:47-51 | Replaces the TTL bounds. |
| Table.LockTable.SetPersist | internal/lease/table.go:56-60 | Installs or removes the hook. |
| Listings.ListGetAndCountAgree | internal/lease/table.go:199-235 | At one clock reading List contains exactly the names Get reports held, with the same status, and its length is HeldCount. |
| Listings.ListingIsUnique | internal/lease/table.go:220-235 | The listing does not depend on the order in which the map is walked. |
| Listings.BeforeMeansPrecedes | internal/lease/table.go:233 | The order of the listing: a proper beginning comes first, otherwise the smaller byte at the first difference decides. |
| Leases.ValidateName | internal/lease/lease.go:80-97 | Accepts exactly 1 to 128 bytes of the allowed characters. |
| Leases.ValidateHolder | internal/lease/lease.go:102-116 | Accepts exactly 1 to 256 printable bytes. |
| Leases.NamesAndHolders | internal/lease/lease.go:80-116 | The two rules byte by byte, with their lengths. |
| Store.SaveIsCrashAtomic | internal/store/store.go:20-60 | At every point of a Save, whichever calls fail, the path holds the old file or the complete new one; an error return leaves the old one, a nil return the new one; a temporary file stays if and only if it was created, the Save failed, and removing it failed. |
| Store.NilIsDurableIff | internal/store/store.go:20-59 | Save returns nil if and only if every call up to the rename succeeds; a nil return survives power loss if and only if the directory sync succeeded or nothing else could come back, and the directory was already durable in its parent. |
| Store.LoadSucceedsIff | internal/store/store.go:62-87 | Load succeeds if and only if there is no file, which gives no locks, or a complete one of this schema, which it returns. |
| Store.SaveStepProgress | internal/store/store.go:20-60 | One system call of a Save, successful or not, keeps what is visible, what may come back and what is temporary as it should be. |
| Disk.StateDirectory.Save | internal/store/store.go:20-60 | The program's sequence of calls, early exits and deferred removal passes through exactly the states of the micro-step model and returns its result. |
| Wire.ClientLearnsWhatTheTableSaid | internal/client/client.go:106-154 | A client sees gone, busy or a lease exactly when the table said so, with the same token and a deadline less than a millisecond early and never late. |
| Wire.StatusCodes | internal/server/server.go:238-263 | 400, 409, 410, 500 and 200 each if and only if the table said invalid, held, gone, not durable, or success. |
| Wire.BeliefIsNeverLonger | internal/server/server.go:41-50 | When the server's lease has expired, so has the client's copy. |
| Wire.StatusCarriesLiveToken | internal/server/server.go:60-68 | A status or list reply tells anyone who asks the live token and holder of a lock if and only if the lock is held at that clock reading. |
| Wire.SentTtlIsWhole | internal/client/client.go:157-165 | A client's TTL reaches the table in whole milliseconds, not lengthened, without overflow, and unchanged if and only if it was whole. |
| Fence.ScriptMeetsContractIff | examples/fenced-writer.sh:24 | The shell test decides as the protocol does except for a lower token against a fence beyond 64 signed bits. |
| Fence.FencedTarget.WriteFenced | examples/fenced-writer.sh:21-31 | A write is accepted exactly when no accepted one carried a higher token, as long as tokens fit 64 signed bits. |
| WaitLoop.WaitLoop | internal/cli/cli.go:124-141 | Makes at most ceil(wait/poll)+1 tries, one without a budget; all but the last were busy and before the deadline; a busy result means the deadline has passed; the result is the last try's. |
| WithLock.Runner.Run | internal/cli/withlock.go:140-212 | Without a lease nothing is run or released; a command that cannot start costs one release; otherwise the ticker gets the heartbeat period and the run ends at its first decisive event with the right code and actions. |
| WithLock.Runner.Supervise | internal/cli/withlock.go:173-211 | The event loop ends at the first child exit or fatal heartbeat, having answered every event before it, and the deadline field is then the one of the last successful reply. |
| WithLock.Runner.Loop | internal/cli/withlock.go:173-209 | Every event before the first decisive one is answered, and the loop stops there. |
| WithLock.Runner.Answer | internal/cli/withlock.go:185-209 | A heartbeat renews and may lose the lease, a signal is passed on to the child. |
| WithLock.Runner.Heartbeat | internal/cli/withlock.go:185-203 | A heartbeat loses the lease if and only if it failed as gone or busy, or failed with the deadline come. |
| WithLock.Runner.StopChild | internal/cli/withlock.go:216-229 | Terminate, a grace period, kill only if it ran out, and the child reaped either way. |
| WithLock.RunProtocol | internal/cli/withlock.go:166-229 | `done` is received exactly once, Release is called exactly once after a child exit and never after a loss, every call carries the acquired credentials, and a loss ends with the child reaped. |
| WithLock.KillProtocol | internal/cli/withlock.go:216-229 | After a loss the child is told to terminate, killed if and only if the grace period runs out before it exits, and then reaped, each once and in this order; otherwise it is neither told nor killed. |
| WithLock.ExitCodes | internal/cli/withlock.go:233-247 | The exit code is the child's own, 128 plus its signal, 3 if waiting failed, 11 if the lease was lost; it is 0 if and only if the child succeeded. |
| WithLock.EventsAreAnswered | internal/cli/withlock.go:185-209 | Exactly the signals that came before the end are passed on, in order, and every heartbeat renews once. |
| WithLock.IntervalIs | internal/cli/withlock.go:116-125 | The heartbeat period is the operator's if positive, otherwise a third of the TTL and at least 100 ms. |
| WithLock.EmptySuccessIsNotTrusted | internal/cli/withlock.go:187-191 | After a success that carries no lease the next transient failure loses the lease. |
| WithLock.LossDecision | internal/cli/withlock.go:191-203 | A failed heartbeat keeps the child running if and only if it is neither gone nor busy and the clock is before the believed deadline; otherwise the run ends there, lost. |
| WithLock.BelievedIsLastSuccess | internal/cli/withlock.go:171-189 | The believed deadline is that of the last successful reply. |
| Heartbeat.HeartbeatKeepsLease | internal/cli/withlock.go:114-125 | With the default interval and a TTL of at least 201 ms the lease never expires, over any number of heartbeats no two of which fail in a row, whatever other callers do and however often the server crashes and restarts. |
| Heartbeat.ToleranceIff | internal/cli/withlock.go:114-125 | A lease survives every schedule with at most k failures in a row if and only if k+1 intervals are strictly shorter than the TTL the table has, and shorter by a whole millisecond if the server may restart. |
| Heartbeat.DefaultIntervalTolerates | internal/cli/withlock.go:114-125 | With the interval taken from the TTL asked for and the table's TTL the whole milliseconds of it: one failure is survived if and only if the TTL is at least 201 ms; two if and only if there are no restarts, it is at least 300 ms and its remainder in nanoseconds of a millisecond is less than its remainder by 3; three never. |
| Heartbeat.ForeignCallKeepsLease | internal/lease/table.go:96-99 | No call with other credentials touches a lease before its deadline, in the table or in the snapshot it saves. |

## Where the code and its documentation differ

The model follows the code.

- internal/cli/withlock.go:114-115 says two renewals can fail before the lease expires. At the default
  TTL of 30 s the third heartbeat falls on the deadline, at which the lease is already gone. Two failures
  are survived exactly when the TTL is at least 300 ms, its fraction of a millisecond (which is not sent
  to the server) is smaller than its remainder by 3 in nanoseconds, and the server does not restart;
  one failure exactly from 201 ms on (`Heartbeat.DefaultIntervalTolerates`).
- docs/protocol.md:25-26 says a burned number is never reissued. That holds for one process lifetime
  (`TableSpec.BurnedInThisLifetime`). Across a crash it holds exactly for numbers at or below the floor in
  the file that the restart finds (`Restarts.BurnedReturnsIff`): never for a number just burned
  (`Restarts.BurnedReturnsAtOnce`), always once a later call has been saved (`Restarts.BurnLastsOnceSaved`).
- docs/protocol.md:70-72 tells a client to stop for good on 410. Within a lifetime its lease is indeed
  gone for good, for every token at or below the floor (`TableSpec.GoneReturnsIff`). Across a crash the
  file decides: credentials hold the lock again exactly
  while it has their lease (`Restarts.LeaseReturnsIff`), so a release that could not be saved comes back
  (`Restarts.FailedReleaseReturnsUntil`).
- internal/lease/table.go:125-128 calls a failed Renew safe. It is, unless the renewal shortens
  (`Exclusion.UnheardRenewIsSafeIff`).
- internal/store/store.go:52-54 calls the directory sync a best-effort improvement. For power loss it
  is necessary, and so is that the directory existed durably before: internal/store/store.go:22 may have
  just made it, and nothing syncs its parent (`Store.NilIsDurableIff`).
- internal/lease/lease.go:50-53 says tokens only go to their holder. The status replies tell a lock's live
  token to anyone who asks, exactly while it is held (`Wire.StatusCarriesLiveToken`).

## Left out

- Safety.FencingEndToEnd: speaks of runs shorter than 2^63 labels, because the counter wraps at 2^64 and the shell's test stops rejecting above 2^63 - 1 (`TableSpec.GrantRaisesFloorIffNoWrap`, `Fence.ScriptMeetsContractIff`).
- Exclusion.MutualExclusion: assumes one clock for all, shared by clients and successive servers; clock skew between machines is not modelled.
- WithLock.Runner.Run: the child's exit is an event that comes once; real processes, signals and whether the child dies when told to are not modelled.
- Fence.FencedTarget.WriteFenced: the check and the update of the fence file are one step, as in the protocol document; the race between two scripts is not modelled.
- Heartbeat.HeartbeatKeepsLease: heartbeats come on schedule with no delay between tick and table; a request that finds the server down counts as lost.
- Store.NilIsDurableIff: only the state directory itself is taken to be possibly new; directories made above it are part of the same condition.
- HTTP routing, body decoding, JSON text and request logs: files are whole snapshots or torn, replies are datatypes, error texts are constructors.
- The names of the methods that follow the mutex (`AcquireLocked`, `RenewLocked`, `ReleaseLocked`) and of `EnsureRecord`: the source has one function each; the model cuts them where the mutex is taken.
- The pointer to a lease inside a record is an optional value: the source never changes a lease through two names, so sharing is not modelled.
- The library sort behind List is a function with the same sorted result; Load is a function, since it changes nothing.
- Go's mutex and memory model: each table call is one step, except for the crash points inside it.
- Overflow of durations beyond 64 bits, which needs a request or a state file that no client or server of this code writes.
- Two servers on one state file, files edited by hand while a server runs, clients using a token they learned from a status reply or another grant's credentials, and Restore on a table in service.
- A state path that looks like one of Save's temporary names: the state file and the temporary files are kept apart.
- Flag parsing, output formatting, what the status and list commands print, the environment passed to the child.
