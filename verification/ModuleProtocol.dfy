/** The life of one module as a transition system: the stored object, the reconcile that is in
    flight (at most one per object) and the environment.

    A reconcile is cut at every API write and manager call; the control point it has reached is
    `pc`.  Reading the workspace, building the manager and the annotation patch that goes with it
    are merged into one step, the gate: nothing between them reads what the environment may
    change.  A read followed by a conditional write (set the phase, add or
    remove the finalizer) is one step, because a conflicting write in between makes the API
    server reject the update and the retry reads again. */
module ModuleProtocol {
  import opened Common
  import opened HelmScaling

  datatype Phase = Empty | Ready | Installing | Uninstalling | Sleeping | Sleeped | Resuming | Failed

  datatype WorkspacePhase = NoPhase | WsReady | WsInstalling | WsHibernated | WsFailed | WsTerminating

  /** What a module reconcile reads of its workspace. */
  datatype WorkspaceView = WorkspaceView(ready: bool, phase: WorkspacePhase, deleting: bool)

  /** A call of the module's manager. */
  datatype Call = Install | Sleep | Resume | Uninstall

  /** Control points of a reconcile.  Every operation announces itself by writing a transitional
      phase, passes the workspace gate, calls the manager, records the metadata and settles by
      writing a final phase (or, for Uninstall, by removing the finalizer). */
  datatype Pc =
    | Idle
    | Finalizing
    | Announcing(op: Call)
    | Gating(op: Call)
    | Calling(op: Call)
    | Recording(op: Call, ok: bool)
    | Settling(op: Call, ok: bool)
    | Expiring

  /** What never changes during a module's life: its release, whether it is a Helm module and
      whether it adopted an existing release. */
  datatype Config = Config(release: Release, helm: bool, adopted: bool)

  /** The stored object.  Once `stored` is false it has been deleted for good. */
  datatype Object = Object(
    stored: bool, phase: Phase, hibernated: bool, deleting: bool, finalizer: bool,
    lastActivity: Option<int>, history: Option<ReplicaHistory>)

  /** `mem` is the replica history held in memory by the running operation.  `trace`, `saved`
      and `durable` are history variables: the manager calls so far, the release's replica
      counts when the last Sleep call began, and whether the annotation patch after it landed. */
  datatype State = State(
    obj: Object, now: int, workspace: Option<WorkspaceView>, cluster: Cluster,
    pc: Pc, mem: Option<ReplicaHistory>,
    trace: seq<Call>, saved: map<Key, int>, durable: bool)

  datatype Action =
    | Start(readable: bool)
    | Write(o: Outcome)
    | Gate(wsReadable: bool, built: bool, o: Outcome)
    | Manager(ok: bool, mem: Option<ReplicaHistory>, cluster: Cluster)
    | Crash
    | SetHibernated(value: bool)
    | RequestDelete
    | Tick(seconds: nat)
    | WorkspaceChanges(view: Option<WorkspaceView>)
    | Rescale(cluster: Cluster)

  const TRANSITION_TIMEOUT := 300

  predicate Transitional(p: Phase) {
    p.Installing? || p.Uninstalling? || p.Sleeping? || p.Resuming?
  }

  predicate Deletable(p: Phase) {
    p.Ready? || p.Failed? || p.Sleeped?
  }

  /** The phase that announces an operation. */
  function AnnouncedPhase(op: Call): Phase {
    match op
    case Install => Installing
    case Sleep => Sleeping
    case Resume => Resuming
    case Uninstall => Uninstalling
  }

  /** The phase an operation other than Uninstall settles in. */
  function SettledPhase(op: Call, ok: bool): Phase {
    if op.Sleep? then Sleeped else if ok then Ready else Failed
  }

  /** The branch taken by the hibernation handler on the copy it holds. */
  function HibernationPc(phase: Phase, hibernated: bool): Pc {
    if phase.Ready? && hibernated then Announcing(Sleep)
    else if phase.Sleeped? && !hibernated then Announcing(Resume)
    else Idle
  }

  predicate TimedOut(last: Option<int>, now: int) {
    last.Some? && now - last.value > TRANSITION_TIMEOUT
  }

  /** Where a reconcile that just read the object goes. */
  function DispatchPc(obj: Object, now: int): Pc {
    if obj.deleting then (if Deletable(obj.phase) then Announcing(Uninstall) else Idle)
    else if obj.phase.Empty? then Finalizing
    else if obj.phase.Ready? || obj.phase.Sleeped? then HibernationPc(obj.phase, obj.hibernated)
    else if Transitional(obj.phase) && TimedOut(obj.lastActivity, now) then Expiring
    else Idle
  }

  /** An object after a write, and where the writer goes. */
  datatype Written = Written(obj: Object, pc: Pc)

  function WritePhase(obj: Object, now: int, p: Phase, o: Outcome, next: Pc): Written {
    if !obj.stored || o.Rejected? then Written(obj, Idle)
    else Written(obj.(phase := p, lastActivity := Some(now)), if o.Ok? then next else Idle)
  }

  function WriteFinalizer(obj: Object, o: Outcome): Written {
    if !obj.stored || o.Rejected? then Written(obj, Idle)
    else Written(obj.(finalizer := true), if o.Ok? || obj.finalizer then Announcing(Install) else Idle)
  }

  /** The object disappears with its finalizer: it is already marked for deletion. */
  function DropFinalizer(obj: Object, o: Outcome): Written {
    if obj.stored && obj.finalizer && o.Landed() then Written(obj.(finalizer := false, stored := false), Idle)
    else Written(obj, Idle)
  }

  function PatchHistory(obj: Object, h: Option<ReplicaHistory>, o: Outcome): Object {
    if obj.stored && o.Landed() then obj.(history := h) else obj
  }

  /** Where a settled operation goes: a module that just became ready after installation, or just
      fell asleep, goes on to the (rest of the) hibernation handler with its fresh copy. */
  function AfterSettling(op: Call, ok: bool, hibernated: bool): Pc {
    if (op.Install? && ok) || op.Sleep? then HibernationPc(SettledPhase(op, ok), hibernated) else Idle
  }

  /** After the metadata patch: a failed installation is still settled (as failed), a failed sleep
      or resume ends the reconcile with an error. */
  function AfterRecording(op: Call, ok: bool): Pc {
    if ok || op.Install? then Settling(op, ok) else Idle
  }

  /** The write pending at a control point. */
  function WriteAt(obj: Object, now: int, mem: Option<ReplicaHistory>, pc: Pc, o: Outcome): Written {
    match pc
    case Finalizing => WriteFinalizer(obj, o)
    case Announcing(op) => WritePhase(obj, now, AnnouncedPhase(op), o, Gating(op))
    case Recording(op, ok) => Written(PatchHistory(obj, mem, o), AfterRecording(op, ok))
    case Settling(op, ok) =>
      if op.Uninstall? then DropFinalizer(obj, o)
      else WritePhase(obj, now, SettledPhase(op, ok), o, AfterSettling(op, ok, obj.hibernated))
    case Expiring => WritePhase(obj, now, Failed, o, Idle)
    case _ => Written(obj, pc)
  }

  /** An announcement leaves the operation with a fresh copy of the object, from which it takes
      its metadata. */
  function DoWrite(s: State, o: Outcome): State {
    var w := WriteAt(s.obj, s.now, s.mem, s.pc, o);
    s.(obj := w.obj, pc := w.pc,
       mem := if s.pc.Announcing? then s.obj.history else s.mem,
       durable := if s.pc.Recording? && s.pc.op.Sleep? then o.Landed() else s.durable)
  }

  /** The workspace test before an installation: None if the workspace cannot be read, else
      whether installation may go on. */
  function InstallReady(ws: Option<WorkspaceView>, wsReadable: bool): Option<bool> {
    if !wsReadable || ws.None? then None
    else Some(ws.value.ready && ws.value.phase.WsReady?)
  }

  /** The workspace test shared by sleep and resume. */
  predicate HibernationReady(ws: Option<WorkspaceView>, wsReadable: bool) {
    wsReadable && ws.Some? && ws.value.ready && (ws.value.phase.WsReady? || ws.value.phase.WsHibernated?)
  }

  /** The workspace test before an uninstallation. */
  predicate UninstallReady(ws: Option<WorkspaceView>, wsReadable: bool) {
    wsReadable && ws.Some?
    && (ws.value.deleting
        || (ws.value.ready
            && (ws.value.phase.WsReady? || ws.value.phase.WsHibernated? || ws.value.phase.WsFailed?)))
  }

  /** Where an operation goes once the workspace has been read and the manager built. */
  function AfterGate(cfg: Config, ws: Option<WorkspaceView>, op: Call, wsReadable: bool, built: bool, o: Outcome): Pc {
    match op
    case Install =>
      var ready := InstallReady(ws, wsReadable);
      if ready.None? then Settling(Install, false)
      else if !ready.value then Idle
      else if cfg.adopted then Settling(Install, built && o.Ok?)
      else if !built then Settling(Install, false)
      else Calling(Install)
    case Uninstall =>
      if cfg.adopted then Settling(Uninstall, true)
      else if !UninstallReady(ws, wsReadable) || !built then Settling(Uninstall, false)
      else Calling(Uninstall)
    case _ =>
      if !HibernationReady(ws, wsReadable) || !built then Idle else Calling(op)
  }

  /** The gate in one step: the workspace is read, the manager is built, and the metadata annotation is
      patched, which may fail silently. */
  function DoGate(cfg: Config, s: State, wsReadable: bool, built: bool, o: Outcome): State {
    var next := if s.pc.Gating? then AfterGate(cfg, s.workspace, s.pc.op, wsReadable, built, o) else s.pc;
    s.(pc := next,
       obj := if s.pc.Gating? && next.Calling? then PatchHistory(s.obj, s.mem, o) else s.obj)
  }

  /** Can the manager end its call like this?  Only the Helm manager's Sleep and Resume are
      constrained; installing and uninstalling may do anything to the cluster. */
  ghost predicate CanReturn(cfg: Config, s: State, ok: bool, mem: Option<ReplicaHistory>, cluster: Cluster) {
    && s.pc.Calling?
    && (cfg.helm && s.pc.op.Sleep? ==> SleepRel(cfg.release, s.mem, s.cluster, ok, mem, cluster))
    && (cfg.helm && s.pc.op.Resume? ==> ResumeRel(s.mem, s.cluster, ok, cluster))
    && (!s.pc.op.Sleep? ==> mem == s.mem)
  }

  /** One manager call; a result the manager cannot produce is ignored. */
  ghost function DoManager(cfg: Config, s: State, ok: bool, mem: Option<ReplicaHistory>, cluster: Cluster): State {
    if !CanReturn(cfg, s, ok, mem, cluster) then s
    else s.(trace := s.trace + [s.pc.op], cluster := cluster, mem := mem,
            saved := if s.pc.op.Sleep? then Own(cfg.release, s.cluster) else s.saved,
            durable := s.durable && !s.pc.op.Sleep?,
            pc := if s.pc.op.Uninstall? then Settling(Uninstall, ok) else Recording(s.pc.op, ok))
  }

  /** Workloads of the release may be rescaled, added or removed by others, except between
      the moment a sleep is announced and the moment the wake-up is acknowledged. */
  ghost predicate MayRescale(cfg: Config, s: State, cluster: Cluster) {
    s.obj.phase.Sleeping? || s.obj.phase.Sleeped? || s.obj.phase.Resuming? ==>
      Own(cfg.release, cluster) == Own(cfg.release, s.cluster)
  }

  function DeleteRequested(obj: Object): Object {
    if obj.finalizer then obj.(deleting := obj.deleting || obj.stored) else obj.(stored := false)
  }

  ghost function Next(cfg: Config, s: State, a: Action): State {
    match a
    case Start(readable) =>
      s.(pc := if s.pc.Idle? && s.obj.stored && readable then DispatchPc(s.obj, s.now) else s.pc)
    case Write(o) => DoWrite(s, o)
    case Gate(wsReadable, built, o) => DoGate(cfg, s, wsReadable, built, o)
    case Manager(ok, mem, cluster) => DoManager(cfg, s, ok, mem, cluster)
    case Crash => s.(pc := Idle)
    case SetHibernated(value) => s.(obj := if s.obj.stored then s.obj.(hibernated := value) else s.obj)
    case RequestDelete => s.(obj := DeleteRequested(s.obj))
    case Tick(seconds) => s.(now := s.now + seconds)
    case WorkspaceChanges(view) => s.(workspace := view)
    case Rescale(cluster) => s.(cluster := if MayRescale(cfg, s, cluster) then cluster else s.cluster)
  }

  /** The state after a whole run. */
  ghost function Exec(cfg: Config, s: State, run: seq<Action>): State {
    if run == [] then s
    else Next(cfg, Exec(cfg, s, run[..|run| - 1]), run[|run| - 1])
  }

  /** A freshly created module; the annotation and the cluster may hold anything. */
  ghost predicate Fresh(s: State) {
    && s.obj.stored && s.obj.phase.Empty? && !s.obj.deleting && s.obj.lastActivity.None?
    && s.pc.Idle? && s.trace == [] && s.saved == map[] && !s.durable
  }

  lemma ExecAppend(cfg: Config, s: State, run: seq<Action>, a: Action)
    ensures Exec(cfg, s, run + [a]) == Next(cfg, Exec(cfg, s, run), a)
  {
    assert (run + [a])[..|run|] == run;
  }
}
