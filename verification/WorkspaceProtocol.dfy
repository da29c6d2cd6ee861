/** The life of one workspace as a transition system, cut like the module protocol at every API
    call: the stored object, the reconcile in flight, the modules, and the two cron indexes that all
    workspaces share.

    The workspace's type and origin cannot be edited (admission), so they are part of `Config`. */
module WorkspaceProtocol {
  import opened Common
  import opened ModuleSpecs
  import opened ModuleStore
  import opened Forking
  import opened CronIndex
  import MP = ModuleProtocol

  /** The auto-hibernation section: absent, switched off, or on. */
  datatype Auto = NoAuto | AutoOff | AutoOn(schedule: string, wake: Option<string>)

  datatype Status = Status(phase: MP.WorkspacePhase, ready: bool, lastActivity: Option<int>, hibernatedAt: Option<int>)

  /** The stored object.  Once `stored` is false it has been deleted for good. */
  datatype Workspace = Workspace(
    stored: bool, deleting: bool, finalizer: bool, hibernated: bool, auto: Auto, status: Status)

  /** With a `reliable` API server no call of the fan-out and of the fork fails. */
  datatype Config = Config(uid: Uid, ref: WorkspaceRef, managed: bool, from: Option<WorkspaceRef>, reliable: bool)

  /** The phases the controller ever writes. */
  datatype Target = ToReady | ToFailed | ToHibernated | ToInstalling

  /** What a handler does after a status write that was acknowledged. */
  datatype Then = ThenProvision | ThenFork | ThenSchedule | ThenStop

  /** How waiting for the deletion of a module ended. */
  datatype Verdict = Refused | Gone | Expired

  datatype Pc =
    | Idle
    | Finalizing
    | Setting(target: Target, next: Then)
    | Provisioning
    | Looking(auto: Auto)
    | Forking(auto: Auto)
    | FanningOut(down: bool)
    | Scheduling(auto: Auto)
    | Waking(auto: Auto)
    | Listing
    | Clearing(names: seq<Name>)
    | ClearingWakes(names: seq<Name>)
    | Deleting(names: seq<Name>, done: nat)
    | Awaiting(names: seq<Name>, done: nat, since: int)
    | TearingDown
    | Releasing
    | Stuck

  /** The milestones of deletion. */
  datatype Event =
    | Listed(names: seq<Name>)
    | Settled(name: Name, verdict: Verdict, waited: int)
    | TornDown(ok: bool)
    | Released

  /** `fork` is what has become of the copies of a fork.  `forks` (the outcomes of the attempts to fork)
      and `trace` are history variables. */
  datatype State<S> = State(
    ws: Workspace, now: int, modules: Modules, sleeps: Consistent<S>, wakes: Consistent<S>,
    pc: Pc, fork: Progress, forks: seq<bool>, trace: seq<Event>)

  datatype Action =
    | Start(readable: bool)
    | Write(o: Outcome)
    | Work(ok: bool)
    | Fork(ok: bool, drafts: seq<Draft>)
    | Spawn(i: nat, o: Outcome, name: Name)
    | FanOut(ok: bool, hit: set<Name>)
    | Cron
    | List(ok: bool, names: seq<Name>)
    | Delete(ok: bool)
    | Settle(gone: bool)
    | Crash
    | SetHibernated(value: bool)
    | SetAuto(auto: Auto)
    | RequestDelete
    | Tick(seconds: nat)
    | ModulesChange(modules: Modules)
    | OtherCron(wake: bool, op: Op)

  const MODULE_DELETION_TIMEOUT := 60

  /** The status each writer stores. */
  function StatusOf(t: Target, now: int): Status {
    match t
    case ToReady => Status(MP.WsReady, true, Some(now), None)
    case ToFailed => Status(MP.WsFailed, false, Some(now), None)
    case ToHibernated => Status(MP.WsHibernated, true, Some(now), Some(now))
    case ToInstalling => Status(MP.WsInstalling, false, Some(now), None)
  }

  predicate Deletable(p: MP.WorkspacePhase) {
    p.WsReady? || p.WsHibernated? || p.WsFailed?
  }

  /** The branch of the hibernation handler. */
  function HibernationPc(ws: Workspace): Pc {
    if ws.status.hibernatedAt.None? && ws.hibernated then FanningOut(true)
    else if ws.status.hibernatedAt.Some? && !ws.hibernated then FanningOut(false)
    else Scheduling(ws.auto)
  }

  function DispatchPc(ws: Workspace): Pc {
    if ws.deleting then (if Deletable(ws.status.phase) then Listing else Idle)
    else if ws.status.phase.NoPhase? then Finalizing
    else if ws.status.phase.WsReady? || ws.status.phase.WsHibernated? then HibernationPc(ws)
    else Idle
  }

  datatype Written = Written(ws: Workspace, pc: Pc)

  /** Once the finalizer is there, a managed workspace is provisioned first. */
  function FinalizedPc(cfg: Config, ws: Workspace): Pc {
    if cfg.managed then Setting(ToInstalling, ThenProvision)
    else if ws.hibernated then Setting(ToHibernated, ThenSchedule)
    else Setting(ToReady, ThenFork)
  }

  function WriteFinalizer(cfg: Config, ws: Workspace, o: Outcome): Written {
    if !ws.stored || o.Rejected? then Written(ws, Idle)
    else Written(ws.(finalizer := true), if o.Ok? || ws.finalizer then FinalizedPc(cfg, ws) else Idle)
  }

  function AfterSetting(cfg: Config, next: Then, auto: Auto): Pc {
    match next
    case ThenProvision => Provisioning
    case ThenFork => if cfg.from.Some? then Looking(auto) else Scheduling(auto)
    case ThenSchedule => Scheduling(auto)
    case ThenStop => Idle
  }

  function WriteStatus(cfg: Config, ws: Workspace, now: int, t: Target, next: Then, o: Outcome): Written {
    if !ws.stored || o.Rejected? then Written(ws, Idle)
    else Written(ws.(status := StatusOf(t, now)), if o.Ok? then AfterSetting(cfg, next, ws.auto) else Idle)
  }

  predicate Drops(ws: Workspace, o: Outcome) {
    ws.stored && ws.finalizer && o.Landed()
  }

  function WriteAt(cfg: Config, ws: Workspace, now: int, pc: Pc, o: Outcome): Written {
    match pc
    case Finalizing => WriteFinalizer(cfg, ws, o)
    case Setting(t, next) => WriteStatus(cfg, ws, now, t, next, o)
    case Releasing => Written(if Drops(ws, o) then ws.(finalizer := false, stored := false) else ws, Idle)
    case _ => Written(ws, pc)
  }

  /** Calls that only succeed or fail: provisioning, reading the source workspace, teardown. */
  function AfterWork(pc: Pc, ok: bool): Pc {
    match pc
    case Provisioning => if ok then Setting(ToReady, ThenFork) else Setting(ToFailed, ThenStop)
    case Looking(auto) => if ok then Forking(auto) else Setting(ToFailed, ThenStop)
    case TearingDown => Releasing
    case _ => pc
  }

  /** The next module to delete, or what follows the last one. */
  function DeletingPc(cfg: Config, names: seq<Name>, done: nat): Pc {
    if done < |names| then Deleting(names, done)
    else if cfg.managed then TearingDown
    else Releasing
  }

  /** The cron operation pending at a control point. */
  function CronOp(cfg: Config, pc: Pc, now: int): Option<Op> {
    match pc
    case Scheduling(auto) =>
      (match auto
       case NoAuto => None
       case AutoOff => Some(RemoveOp(cfg.uid))
       case AutoOn(schedule, _) => Some(AddOp(cfg.uid, schedule, true, now)))
    case Waking(auto) =>
      (match auto
       case NoAuto => None
       case AutoOff => Some(RemoveOp(cfg.uid))
       case AutoOn(_, wake) =>
         Some(if wake.Some? then AddOp(cfg.uid, wake.value, true, now) else RemoveOp(cfg.uid)))
    case Clearing(_) => Some(RemoveOp(cfg.uid))
    case ClearingWakes(_) => Some(RemoveOp(cfg.uid))
    case _ => None
  }

  predicate OnSleeps(pc: Pc) {
    pc.Scheduling? || pc.Clearing?
  }

  predicate OnWakes(pc: Pc) {
    pc.Waking? || pc.ClearingWakes?
  }

  /** A rejected schedule is only logged. */
  function AfterCron(cfg: Config, pc: Pc, r: Answer): Pc {
    if r.Blocked? && (OnSleeps(pc) || OnWakes(pc)) then Stuck
    else match pc
      case Scheduling(auto) => Waking(auto)
      case Waking(_) => Idle
      case Clearing(names) => ClearingWakes(names)
      case ClearingWakes(names) => DeletingPc(cfg, names, 0)
      case _ => pc
  }

  ghost function Applied<S>(k: Clockwork<S>, c: Consistent<S>, op: Option<Op>): (Consistent<S>, Answer) {
    if op.None? then (c, Done) else Stepped(k, c, op.value)
  }

  /** What a step may answer on its own account: a fork, a fan-out, a listing. */
  ghost predicate MayFork(cfg: Config, ms: Modules, ok: bool, drafts: seq<Draft>) {
    && cfg.from.Some? && ForkPlan(ms, cfg.from.value, cfg.ref, ok, drafts)
    && (cfg.reliable ==> (ok <==> forall n | n in RelatedNames(ms, cfg.from.value) :: Forkable(ms[n])))
  }

  ghost predicate MayFanOut(cfg: Config, ms: Modules, down: bool, ok: bool, hit: set<Name>) {
    && hit <= RelatedNames(ms, cfg.ref)
    && (cfg.reliable ==> ok && (down ==> AllHit(ms, cfg.ref, hit, true)))
  }

  ghost predicate MayList(cfg: Config, ms: Modules, names: seq<Name>) {
    Distinct(names) && Elems(names) == RelatedNames(ms, cfg.ref)
  }

  /** Steps that cannot happen in a state are ignored. */
  ghost predicate CanHappen<S>(cfg: Config, s: State<S>, a: Action) {
    match a
    case Fork(ok, drafts) => s.pc.Forking? && MayFork(cfg, s.modules, ok, drafts)
    case Spawn(i, o, name) => i < |s.fork.drafts| && name !in s.modules && (cfg.reliable ==> o.Ok?)
    case FanOut(ok, hit) => s.pc.FanningOut? && MayFanOut(cfg, s.modules, s.pc.down, ok, hit)
    case List(_, names) => s.pc.Listing? && MayList(cfg, s.modules, names)
    case Delete(_) => s.pc.Deleting? && s.pc.done < |s.pc.names|
    case Settle(gone) =>
      // A verdict is only reached on what is seen: the module missing, or the whole wait over.
      && s.pc.Awaiting? && s.pc.done < |s.pc.names|
      && if gone then s.pc.names[s.pc.done] !in s.modules else s.now - s.pc.since >= MODULE_DELETION_TIMEOUT
    case OtherCron(_, op) => op.uid != cfg.uid
    case _ => true
  }

  function DeleteRequested(ws: Workspace): Workspace {
    if ws.finalizer then ws.(deleting := ws.deleting || ws.stored) else ws.(stored := false)
  }

  /** The fan-out as written: only hibernation changes modules. */
  ghost function FannedOut(ms: Modules, down: bool, ok: bool, hit: set<Name>): Modules {
    if ok && down then SetFlagsOn(ms, hit, true) else ms
  }

  // The parts of the state after a step.

  function WsAfter<S>(cfg: Config, s: State<S>, a: Action): Workspace {
    match a
    case Write(o) => WriteAt(cfg, s.ws, s.now, s.pc, o).ws
    case SetHibernated(value) => if s.ws.stored then s.ws.(hibernated := value) else s.ws
    case SetAuto(auto) => if s.ws.stored then s.ws.(auto := auto) else s.ws
    case RequestDelete => DeleteRequested(s.ws)
    case _ => s.ws
  }

  ghost function ModulesAfter<S>(cfg: Config, s: State<S>, a: Action): Modules
    requires CanHappen(cfg, s, a)
  {
    match a
    case Spawn(i, o, name) => if o.Landed() then s.modules[name := s.fork.drafts[i].copy] else s.modules
    case FanOut(ok, hit) => FannedOut(s.modules, s.pc.down, ok, hit)
    case ModulesChange(ms) => ms
    case _ => s.modules
  }

  /** The operation a step performs on each of the two cron indexes, if any. */
  function SleepOp<S>(cfg: Config, s: State<S>, a: Action): Option<Op> {
    if a.Cron? && OnSleeps(s.pc) then CronOp(cfg, s.pc, s.now)
    else if a.OtherCron? && !a.wake then Some(a.op)
    else None
  }

  function WakeOp<S>(cfg: Config, s: State<S>, a: Action): Option<Op> {
    if a.Cron? && OnWakes(s.pc) then CronOp(cfg, s.pc, s.now)
    else if a.OtherCron? && a.wake then Some(a.op)
    else None
  }

  ghost function IndexAfter<S>(k: Clockwork<S>, c: Consistent<S>, op: Option<Op>, a: Action): Consistent<S> {
    if a.Crash? then Index(false, map[], map[], 0) else Applied(k, c, op).0
  }

  /** How the cron operation of the reconcile in flight ends. */
  ghost function CronAnswer<S>(k: Clockwork<S>, cfg: Config, s: State<S>): Answer {
    if OnSleeps(s.pc) then Applied(k, s.sleeps, CronOp(cfg, s.pc, s.now)).1
    else Applied(k, s.wakes, CronOp(cfg, s.pc, s.now)).1
  }

  ghost function PcAfter<S>(k: Clockwork<S>, cfg: Config, s: State<S>, a: Action): Pc
    requires CanHappen(cfg, s, a)
  {
    match a
    case Start(readable) => if s.pc.Idle? && s.ws.stored && readable then DispatchPc(s.ws) else s.pc
    case Write(o) => WriteAt(cfg, s.ws, s.now, s.pc, o).pc
    case Work(ok) => AfterWork(s.pc, ok)
    case Fork(_, _) => Scheduling(s.pc.auto)
    case FanOut(ok, _) =>
      if !ok then Setting(ToFailed, ThenStop) else Setting(if s.pc.down then ToHibernated else ToReady, ThenSchedule)
    case Cron => AfterCron(cfg, s.pc, CronAnswer(k, cfg, s))
    case List(ok, names) => if ok then Clearing(names) else Idle
    case Delete(ok) =>
      if ok then Awaiting(s.pc.names, s.pc.done, s.now) else DeletingPc(cfg, s.pc.names, s.pc.done + 1)
    case Settle(_) => DeletingPc(cfg, s.pc.names, s.pc.done + 1)
    case Crash => Idle
    case _ => s.pc
  }

  ghost function ForkAfter<S>(cfg: Config, s: State<S>, a: Action): Progress
    requires CanHappen(cfg, s, a)
  {
    match a
    case Fork(ok, drafts) => if ok then Planned(s.modules, drafts) else s.fork
    case Spawn(i, o, name) => Spawned(s.fork, i, o.Landed(), name)
    case Crash => Abandoned(s.fork)
    case _ => s.fork
  }

  /** The milestone of deletion that a step is, if any. */
  ghost function EventOf<S>(cfg: Config, s: State<S>, a: Action): Option<Event>
    requires CanHappen(cfg, s, a)
  {
    match a
    case Write(o) => if s.pc.Releasing? && Drops(s.ws, o) then Some(Released) else None
    case Work(ok) => if s.pc.TearingDown? then Some(TornDown(ok)) else None
    case List(ok, names) => if ok then Some(Listed(names)) else None
    case Delete(ok) => if ok then None else Some(Settled(s.pc.names[s.pc.done], Refused, 0))
    case Settle(gone) => Some(Settled(s.pc.names[s.pc.done], if gone then Gone else Expired, s.now - s.pc.since))
    case _ => None
  }

  function Extended(trace: seq<Event>, e: Option<Event>): seq<Event> {
    if e.Some? then trace + [e.value] else trace
  }

  ghost function Next<S>(k: Clockwork<S>, cfg: Config, s: State<S>, a: Action): State<S> {
    if !CanHappen(cfg, s, a) then s
    else State(
           WsAfter(cfg, s, a),
           if a.Tick? then s.now + a.seconds else s.now,
           ModulesAfter(cfg, s, a),
           IndexAfter(k, s.sleeps, SleepOp(cfg, s, a), a),
           IndexAfter(k, s.wakes, WakeOp(cfg, s, a), a),
           PcAfter(k, cfg, s, a),
           ForkAfter(cfg, s, a),
           if a.Fork? then s.forks + [a.ok] else s.forks,
           Extended(s.trace, EventOf(cfg, s, a)))
  }

  ghost function Exec<S>(k: Clockwork<S>, cfg: Config, s: State<S>, run: seq<Action>): State<S> {
    if run == [] then s
    else Next(k, cfg, Exec(k, cfg, s, run[..|run| - 1]), run[|run| - 1])
  }

  /** A freshly created workspace, whose UID no index knows yet. */
  ghost predicate Fresh<S>(cfg: Config, s: State<S>) {
    && s.ws.stored && !s.ws.deleting && s.ws.status == Status(MP.NoPhase, false, None, None)
    && cfg.uid !in s.sleeps.ids && cfg.uid !in s.wakes.ids
    && s.pc.Idle? && s.fork == NOTHING && s.forks == [] && s.trace == []
  }

  lemma ExecAppend<S>(k: Clockwork<S>, cfg: Config, s: State<S>, run: seq<Action>, a: Action)
    ensures Exec(k, cfg, s, run + [a]) == Next(k, cfg, Exec(k, cfg, s, run), a)
  {
    assert (run + [a])[..|run|] == run;
  }
}
