/**
 The whole system as a state machine: the server process with its table, the state directory, the
 replies that have been sent, the clients that have stopped, and the resource that clients write to.

 One label is one atomic event. A table call that has to be persisted holds the mutex while Save
 makes its system calls one label at a time, so crashes, power losses, client writes and the passing
 of time fall between any two of them.
 */
module System {
  import opened Wrappers
  import opened Leases
  import opened LockState
  import opened Snapshots
  import opened TableSpec
  import opened Store
  import opened Wire
  import opened Fence

  /**
   The server process: down, between calls, or in the middle of a persist that found the directory
   as it was `before`.
   */
  datatype Phase =
    | Down
    | Idle(locks: Locks)
    | Saving(locks: Locks, job: Job, pending: Pending, before: Directory)

  /** A grant whose reply has been sent. */
  datatype Grant = Grant(name: string, holder: string, token: Token)

  /** A deadline told to a client in a reply to acquire or renew, whether or not it arrives. */
  datatype Promise = Promise(name: string, token: Token, expiresAtMS: int)

  /**
   `clock` is the latest clock reading, `stopped` the (name, token) pairs whose client has given up
   its lease, `fence` the highest token each lock's resource has recorded, and `writes` the accepted
   writes, each by the index of the grant it was made under.
   */
  datatype World = World(
    phase: Phase,
    dir: Directory,
    clock: Time,
    steps: nat,
    grants: seq<Grant>,
    promises: seq<Promise>,
    stopped: set<(string, Token)>,
    fence: map<string, Token>,
    writes: seq<nat>)

  /**
   `power`: the machine may lose power; in return every directory sync succeeds, and the state
   directory was durable in its parent before the first server started.
   */
  datatype Setting = Setting(bounds: Bounds, power: bool)

  datatype Label =
    | Request(req: TableSpec.Request, now: Time, hookNow: Time)
    | SystemCall(ok: bool, unused: string)
    | Return
    | Crash
    | PowerLoss(kept: Option<File>)
    | Restart
    | Stop(name: string, token: Token)
    | Write(grant: nat)
    | Tick(now: Time)

  function Start(c: Setting): World {
    World(Down, Directory(None, map[], {None}, if c.power then Settled else Missing), 0, 0, [], [], {}, map[], [])
  }

  /** What a starting server makes of the file at the state path. */
  function Boot(target: Option<File>): Result<Locks> {
    match Load(target)
    case Failure => Failure
    case Success(s) => Restored(Some(s))
  }

  predicate Enabled(c: Setting, w: World, l: Label) {
    match l
    case Request(_, _, _) => w.phase.Idle?
    case SystemCall(ok, unused) =>
      && w.phase.Saving? && !w.phase.job.stage.Returned?
      && CanStep(w.dir, w.phase.job, ok, unused)
      && (c.power && w.phase.job.stage.SyncDir? ==> ok)
    case Return => w.phase.Saving? && w.phase.job.stage.Returned?
    case Crash => !w.phase.Down?
    case PowerLoss(kept) => c.power && Survives(w.dir, kept)
    case Restart => w.phase.Down? && Boot(w.dir.target).Success?
    case Stop(_, _) => true
    case Write(g) => g < |w.grants|
    case Tick(_) => true
  }

  function FenceOf(w: World, name: string): Token {
    if name in w.fence then w.fence[name] else 0
  }

  function Apply(c: Setting, w0: World, l: Label): World
    requires Enabled(c, w0, l)
  {
    var w := w0.(steps := w0.steps + 1);
    match l
    case Request(req, now, hookNow) =>
      (match Decide(c.bounds, w.phase.locks, req, now)
       case Answer(m, _) => w.(phase := Idle(m), clock := now)
       case Commit(m, p) =>
         var m' := PruneAll(m, hookNow);
         w.(phase := Saving(m', Job(Encode(m'), MakeDir), p, w.dir), clock := hookNow))
    case SystemCall(ok, unused) =>
      var (dir, job) := SaveStep(w.dir, w.phase.job, ok, unused);
      w.(dir := dir, phase := w.phase.(job := job))
    case Return => Reply(w, Finish(w.phase.locks, w.phase.pending, w.phase.job.stage.ok))
    case Crash => w.(phase := Down)
    case PowerLoss(kept) => w.(phase := Down, dir := AfterPowerLoss(w.dir, kept))
    case Restart => w.(phase := Idle(Boot(w.dir.target).value))
    case Stop(name, token) => w.(stopped := w.stopped + {(name, token)})
    case Write(g) =>
      var (name, token) := (w.grants[g].name, w.grants[g].token);
      if ScriptRejects(token, FenceOf(w, name)) then w
      else w.(fence := w.fence[name := token], writes := w.writes + [g])
    case Tick(now) => w.(clock := now)
  }

  function PromiseOf(l: Lease): Promise {
    Promise(l.name, l.token, ToWire(l).expiresAtMS)
  }

  /** The call ends: the mutex is released and the reply is sent. */
  function Reply(w: World, end: (Locks, TableSpec.Reply)): World {
    var w := w.(phase := Idle(end.0));
    match end.1
    case Granted(l) =>
      w.(grants := w.grants + [Grant(l.name, l.holder, l.token)], promises := w.promises + [PromiseOf(l)])
    case Renewed(l) => w.(promises := w.promises + [PromiseOf(l)])
    case _ => w
  }

  /** The world after a run, if every label was possible when it came. */
  function Run(c: Setting, labels: seq<Label>): Option<World> {
    if labels == [] then Some(Start(c))
    else
      var last := |labels| - 1;
      match Run(c, labels[..last])
      case None => None
      case Some(w) => if Enabled(c, w, labels[last]) then Some(Apply(c, w, labels[last])) else None
  }

  /** What the state path may hold when a server next starts. */
  ghost predicate Recoverable(c: Setting, dir: Directory, image: Option<File>) {
    image == dir.target || (c.power && Survives(dir, image))
  }

  /** The snapshot in a readable image. */
  function SnapIn(image: Option<File>): Snapshot {
    match image
    case Some(File(Whole(s), _)) => s
    case _ => EMPTY_SNAPSHOT
  }

  function DiskFloor(image: Option<File>, name: string): Token {
    SnapshotFloor(SnapIn(image), name)
  }
}
