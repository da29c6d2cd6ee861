/** The module reconciler as code.  Every API call lets the environment interfere and may fail; the
    ghost log records the step taken, and `Valid` says that the object, the cluster and the manager
    calls are what the protocol computes from that log.  So each execution of this code is a run
    of the module protocol, and what ModuleRuns and ModuleFate prove of runs holds of the code.

    The operator may crash at any API call.  Then `crashed` is set, nothing the code still does has any
    effect, and the reconcile is over. */
module ModuleController {
  import opened Common
  import opened HelmScaling
  import opened ModuleProtocol
  import ModuleRuns
  import ModuleFate

  datatype InstallResult = Installed | WorkspaceNotReady | InstallFailed

  datatype ReconcileResult = Done | Requeue(seconds: nat) | Error

  /** The phase written at a control point, if any. */
  function PendingPhase(pc: Pc): Option<Phase> {
    match pc
    case Announcing(op) => Some(AnnouncedPhase(op))
    case Settling(op, ok) => if op.Uninstall? then None else Some(SettledPhase(op, ok))
    case Expiring => Some(Failed)
    case _ => None
  }

  function AfterPhase(pc: Pc, hibernated: bool): Pc {
    match pc
    case Announcing(op) => Gating(op)
    case Settling(op, ok) => AfterSettling(op, ok, hibernated)
    case _ => Idle
  }

  /** The workspace lets the operation through. */
  predicate Open(cfg: Config, ws: Option<WorkspaceView>, op: Call, readable: bool) {
    match op
    case Install => !cfg.adopted && InstallReady(ws, readable) == Some(true)
    case Uninstall => !cfg.adopted && UninstallReady(ws, readable)
    case _ => HibernationReady(ws, readable)
  }

  /** Where an operation goes whose manager could not be built. */
  function NotBuilt(op: Call): Pc {
    if op.Install? || op.Uninstall? then Settling(op, false) else Idle
  }

  lemma PhaseWrite(obj: Object, now: int, mem: Option<ReplicaHistory>, pc: Pc, p: Phase, o: Outcome)
    requires PendingPhase(pc) == Some(p)
    ensures WriteAt(obj, now, mem, pc, o)
            == Written(if obj.stored && o.Landed() then obj.(phase := p, lastActivity := Some(now)) else obj,
                       if obj.stored && o.Ok? then AfterPhase(pc, obj.hibernated) else Idle)
    ensures !pc.Recording?
  {
  }

  lemma PhaseStep(cfg: Config, s: State, p: Phase, o: Outcome)
    requires PendingPhase(s.pc) == Some(p)
    ensures Next(cfg, s, Write(o))
            == s.(obj := if s.obj.stored && o.Landed() then s.obj.(phase := p, lastActivity := Some(s.now)) else s.obj,
                  pc := if s.obj.stored && o.Ok? then AfterPhase(s.pc, s.obj.hibernated) else Idle,
                  mem := if s.pc.Announcing? then s.obj.history else s.mem)
  {
    PhaseWrite(s.obj, s.now, s.mem, s.pc, p, o);
    hide WriteAt, PendingPhase, AfterPhase;
  }

  class ModuleReconciler {
    const cfg: Config
    const service: HelmService
    const manager: HelmManager
    var obj: Object
    var now: int
    var workspace: Option<WorkspaceView>
    var crashed: bool

    ghost const start: State
    ghost var log: seq<Action>
    ghost var pc: Pc
    ghost var mem: Option<ReplicaHistory>
    ghost var trace: seq<Call>
    ghost var saved: map<Key, int>
    ghost var durable: bool

    ghost function Snapshot(): State
      reads this, service
    {
      State(obj, now, workspace, service.cluster, pc, mem, trace, saved, durable)
    }

    ghost predicate Valid()
      reads this, service
    {
      && manager.service == service && manager.release == cfg.release && (crashed ==> pc.Idle?)
      && Fresh(start) && Snapshot() == Exec(cfg, start, log)
    }

    /** The operator has crashed and no reconcile is in flight. */
    ghost predicate Down()
      reads this
    {
      crashed && pc.Idle?
    }

    /** A module has just been created. */
    constructor (cfg: Config, service: HelmService, hibernated: bool, finalizer: bool,
                 history: Option<ReplicaHistory>, now: int, workspace: Option<WorkspaceView>)
      ensures Valid() && this.cfg == cfg && this.service == service && log == [] && pc.Idle? && !crashed
      ensures obj == Object(true, Empty, hibernated, false, finalizer, None, history)
    {
      this.cfg, this.service := cfg, service;
      this.manager := new HelmManager(service, cfg.release);
      this.obj := Object(true, Empty, hibernated, false, finalizer, None, history);
      this.now, this.workspace, this.crashed := now, workspace, false;
      this.log, this.pc, this.mem, this.trace, this.saved, this.durable := [], Idle, None, [], map[], false;
      this.start := State(Object(true, Empty, hibernated, false, finalizer, None, history), now, workspace,
                          service.cluster, Idle, None, [], map[], false);
    }

    /** Enters the step just taken in the log. */
    ghost method Log(before: State, a: Action)
      requires manager.service == service && manager.release == cfg.release && (crashed ==> pc.Idle?)
      requires Fresh(start) && before == Exec(cfg, start, log)
      requires Snapshot() == Next(cfg, before, a)
      modifies this`log
      ensures Valid() && log == old(log) + [a]
    {
      hide Next, Fresh;
      ExecAppend(cfg, start, log, a);
      log := log + [a];
    }

    /** The environment acts any number of times: users, the clock, the workspace controller and
        whoever else touches workloads.  Then the operator may crash. */
    method Interfere()
      requires Valid()
      modifies this`obj, this`now, this`workspace, this`log, this`pc, this`crashed, service
      ensures Valid() && old(log) <= log
      ensures (old(crashed) ==> crashed) && if crashed then pc.Idle? else pc == old(pc)
    {
      var rounds: nat := *;
      while rounds > 0
        invariant Valid() && old(log) <= log && pc == old(pc) && crashed == old(crashed)
      {
        InterfereOnce();
        rounds := rounds - 1;
      }
      var crash: bool := *;
      if crash {
        Stop();
      }
    }

    method Stop()
      requires Valid()
      modifies this`log, this`pc, this`crashed
      ensures Valid() && old(log) <= log && crashed && pc.Idle?
    {
      hide Exec, Fresh;
      ghost var before := Snapshot();
      pc, crashed := Idle, true;
      Log(before, Crash);
    }

    method InterfereOnce()
      requires Valid()
      modifies this`obj, this`now, this`workspace, this`log, service
      ensures Valid() && old(log) <= log
    {
      hide Exec, Fresh, Own;
      ghost var before := Snapshot();
      if * {
        var value: bool := *;
        obj := if obj.stored then obj.(hibernated := value) else obj;
        Log(before, SetHibernated(value));
      } else if * {
        obj := DeleteRequested(obj);
        Log(before, RequestDelete);
      } else if * {
        var seconds: nat := *;
        now := now + seconds;
        Log(before, Tick(seconds));
      } else if * {
        var view: Option<WorkspaceView> := *;
        workspace := view;
        Log(before, WorkspaceChanges(view));
      } else if * {
        var c: Cluster := *;
        if !obj.phase.Sleeping? && !obj.phase.Sleeped? && !obj.phase.Resuming? {
          service.cluster := c;
          Log(before, Rescale(c));
        }
      } else {
        var foreign: Key := *;
        var w: Workload := *;
        if foreign in service.cluster && !Matches(cfg.release, foreign, service.cluster[foreign])
           && !Matches(cfg.release, foreign, w)
        {
          var c := service.cluster[foreign := w];
          ForeignWorkload(cfg.release, service.cluster, foreign, w);
          service.cluster := c;
          Log(before, Rescale(c));
        }
      }
    }

    // ---------------------------------------------------------------- API calls

    /** Reads the object at the start of a reconcile; the clock is read with it. */
    method Fetch() returns (found: bool, copy: Object, at: int)
      requires Valid() && pc.Idle? && !crashed
      modifies this, service
      ensures Valid() && old(log) <= log
      ensures found ==> !crashed && copy.stored && pc == DispatchPc(copy, at)
      ensures !found ==> pc.Idle?
    {
      Interfere();
      if crashed {
        return false, obj, now;
      }
      hide Exec, Fresh;
      ghost var before := Snapshot();
      var readable: bool := *;
      found, copy, at := obj.stored && readable, obj, now;
      pc := if found then DispatchPc(copy, at) else Idle;
      Log(before, Start(readable));
    }

    /** Reads the object, replaces its status and writes it back, retrying on conflict. */
    method SetPhase(p: Phase) returns (ok: bool, copy: Object)
      requires Valid() && (Down() || PendingPhase(pc) == Some(p))
      modifies this, service
      ensures Valid() && old(log) <= log
      ensures ok ==> !old(crashed) && !crashed && obj == copy && copy.stored && copy.phase == p
      ensures ok ==> pc == AfterPhase(old(pc), copy.hibernated)
      ensures ok && old(pc).Announcing? ==> mem == copy.history
      ensures trace == old(trace)
      ensures !ok ==> pc.Idle?
    {
      hide Valid, PendingPhase, AfterPhase;
      Interfere();
      if crashed {
        return false, obj;
      }
      ok, copy := TrySetPhase(p);
    }

    /** The attempt that is not refused for a conflict. */
    method TrySetPhase(p: Phase) returns (ok: bool, copy: Object)
      requires Valid() && !crashed && PendingPhase(pc) == Some(p)
      modifies this`obj, this`pc, this`mem, this`log
      ensures Valid() && old(log) <= log
      ensures ok ==> obj == copy && copy.stored && copy.phase == p && pc == AfterPhase(old(pc), copy.hibernated)
      ensures ok && old(pc).Announcing? ==> mem == copy.history
      ensures !ok ==> pc.Idle?
    {
      hide Exec, Fresh;
      ghost var before := Snapshot();
      var o: Outcome := *;
      PhaseStep(cfg, before, p, o);
      hide Next, PendingPhase, AfterPhase;
      ghost var after := Next(cfg, before, Write(o));
      mem, pc := after.mem, after.pc;
      if obj.stored && o.Landed() {
        obj := obj.(phase := p, lastActivity := Some(now));
      }
      assert Snapshot() == after;
      ok, copy := obj.stored && o.Ok?, obj;
      Log(before, Write(o));
    }

    /** Adds the finalizer unless it is there. */
    method AddFinalizer() returns (ok: bool)
      requires Valid() && (Down() || pc.Finalizing?)
      modifies this, service
      ensures Valid() && old(log) <= log
      ensures trace == old(trace) && (ok ==> !crashed && obj.finalizer)
      ensures pc == if ok then Announcing(Install) else Idle
    {
      Interfere();
      if crashed {
        return false;
      }
      hide Exec, Fresh;
      ghost var before := Snapshot();
      var o: Outcome := *;
      ok := obj.stored && !o.Rejected? && (o.Ok? || obj.finalizer);
      if obj.stored && o.Landed() {
        obj := obj.(finalizer := true);
      }
      pc := if ok then Announcing(Install) else Idle;
      Log(before, Write(o));
    }

    /** Removes the finalizer if it is there. */
    method RemoveFinalizer() returns (ok: bool)
      requires Valid() && (Down() || (pc.Settling? && pc.op.Uninstall?))
      modifies this, service
      ensures Valid() && old(log) <= log && pc.Idle? && (ok ==> !obj.finalizer)
    {
      Interfere();
      if crashed {
        return false;
      }
      hide Exec, Fresh;
      ghost var before := Snapshot();
      var o: Outcome := *;
      ok := obj.stored && !o.Rejected? && (o.Ok? || !obj.finalizer);
      if obj.stored && obj.finalizer && o.Landed() {
        obj := obj.(finalizer := false, stored := false);
      }
      pc := Idle;
      Log(before, Write(o));
    }

    /** Writes the metadata annotation; a failure is only logged. */
    method PatchMetaData(h: Option<ReplicaHistory>)
      requires Valid() && (Down() || (pc.Recording? && mem == h))
      modifies this, service
      ensures Valid() && old(log) <= log
      ensures (if crashed then pc.Idle? else (old(pc).Recording? && pc == AfterRecording(old(pc).op, old(pc).ok)))
    {
      Interfere();
      if crashed {
        return;
      }
      hide Exec, Fresh;
      ghost var before := Snapshot();
      var o: Outcome := *;
      obj := PatchHistory(obj, h, o);
      durable := if pc.op.Sleep? then o.Landed() else durable;
      pc := AfterRecording(pc.op, pc.ok);
      Log(before, Write(o));
    }

    /** Reads the workspace. */
    method GetWorkspace() returns (readable: bool, view: Option<WorkspaceView>)
      requires Valid() && pc.Gating?
      modifies this`obj, this`now, this`workspace, this`log, this`pc, this`crashed, service
      ensures Valid() && old(log) <= log && view == workspace
      ensures if crashed then !readable && pc.Idle? else pc == old(pc)
    {
      Interfere();
      readable, view := *, workspace;
      readable := readable && !crashed;
    }

    /** Renders the spec, connects to the cluster and patches the metadata annotation. */
    method NewManager(h: Option<ReplicaHistory>, readable: bool) returns (built: bool)
      requires Valid() && !crashed && pc.Gating? && mem == h
      requires Open(cfg, workspace, pc.op, readable)
      modifies this`obj, this`pc, this`log
      ensures Valid() && old(log) <= log
      ensures built ==> pc == Calling(old(pc).op)
      ensures !built ==> pc == NotBuilt(old(pc).op)
    {
      hide Exec, Fresh;
      ghost var before := Snapshot();
      built := *;
      var o: Outcome := *;
      if built {
        obj := PatchHistory(obj, h, o);
        pc := Calling(pc.op);
      } else {
        pc := NotBuilt(pc.op);
      }
      Log(before, Gate(readable, built, o));
    }

    /** Leaves a gate without building the manager. */
    ghost method LeaveGate(readable: bool, built: bool, o: Outcome)
      requires Valid() && (Down() || (pc.Gating? && !AfterGate(cfg, workspace, pc.op, readable, built, o).Calling?))
      modifies this`pc, this`log
      ensures Valid() && old(log) <= log
      ensures if crashed then pc.Idle? else pc == AfterGate(cfg, workspace, old(pc).op, readable, built, o)
    {
      hide Exec, Fresh;
      if crashed {
        return;
      }
      var before := Snapshot();
      pc := AfterGate(cfg, workspace, pc.op, readable, built, o);
      Log(before, Gate(readable, built, o));
    }

    // ---------------------------------------------------------------- manager calls

    method CallInstall() returns (ok: bool)
      requires Valid() && pc == Calling(Install)
      modifies this, service
      ensures Valid() && old(log) <= log && mem == old(mem)
      ensures (if crashed then pc.Idle? else pc == Recording(Install, ok))
    {
      Interfere();
      if crashed {
        return false;
      }
      hide Exec, Fresh;
      ghost var before := Snapshot();
      ok := *;
      service.cluster := *;
      trace, pc := trace + [Install], Recording(Install, ok);
      Log(before, Manager(ok, mem, service.cluster));
    }

    method CallUninstall() returns (ok: bool)
      requires Valid() && pc == Calling(Uninstall)
      modifies this, service
      ensures Valid() && old(log) <= log && (if crashed then pc.Idle? else pc == Settling(Uninstall, ok))
    {
      Interfere();
      if crashed {
        return false;
      }
      hide Exec, Fresh;
      ghost var before := Snapshot();
      ok := *;
      service.cluster := *;
      trace, pc := trace + [Uninstall], Settling(Uninstall, ok);
      Log(before, Manager(ok, mem, service.cluster));
    }

    /** A custom manager may do anything; what the Helm manager does is proved in HelmScaling. */
    method ManagerSleep(h: Option<ReplicaHistory>) returns (ok: bool, h': Option<ReplicaHistory>)
      requires manager.service == service && manager.release == cfg.release
      modifies service
      ensures cfg.helm ==> SleepRel(cfg.release, h, old(service.cluster), ok, h', service.cluster)
    {
      if cfg.helm {
        ok, h' := manager.Sleep(h);
      } else {
        ok, h' := *, *;
        service.cluster := *;
      }
    }

    method ManagerResume(h: Option<ReplicaHistory>) returns (ok: bool)
      requires manager.service == service && manager.release == cfg.release
      modifies service
      ensures cfg.helm ==> ResumeRel(h, old(service.cluster), ok, service.cluster)
    {
      if cfg.helm {
        var decodes: bool := *;
        ok := manager.Resume(h, decodes);
      } else {
        ok := *;
        service.cluster := *;
      }
    }

    method CallSleep(h: Option<ReplicaHistory>) returns (ok: bool, h': Option<ReplicaHistory>)
      requires Valid() && pc == Calling(Sleep) && mem == h
      modifies this, service
      ensures Valid() && old(log) <= log && mem == h' && (if crashed then pc.Idle? else pc == Recording(Sleep, ok))
    {
      Interfere();
      if crashed {
        return false, h;
      }
      hide Exec, Fresh, SleepRel, Own;
      ghost var before := Snapshot();
      ok, h' := ManagerSleep(h);
      saved, durable, mem := Own(cfg.release, before.cluster), false, h';
      trace, pc := trace + [Sleep], Recording(Sleep, ok);
      Log(before, Manager(ok, h', service.cluster));
    }

    method CallResume(h: Option<ReplicaHistory>) returns (ok: bool)
      requires Valid() && pc == Calling(Resume) && mem == h
      modifies this, service
      ensures Valid() && old(log) <= log && mem == h && (if crashed then pc.Idle? else pc == Recording(Resume, ok))
    {
      Interfere();
      if crashed {
        return false;
      }
      hide Exec, Fresh, ResumeRel;
      ghost var before := Snapshot();
      ok := ManagerResume(h);
      trace, pc := trace + [Resume], Recording(Resume, ok);
      Log(before, Manager(ok, mem, service.cluster));
    }

    // ---------------------------------------------------------------- operations

    method InstallModule(copy: Object) returns (r: InstallResult)
      requires Valid() && pc == Gating(Install) && mem == copy.history
      modifies this, service
      ensures Valid() && old(log) <= log
      ensures if crashed then pc.Idle? else pc == match r
                                                     case Installed => Settling(Install, true)
                                                     case WorkspaceNotReady => Idle
                                                     case InstallFailed => Settling(Install, false)
      ensures r.WorkspaceNotReady? ==> trace == old(trace)
    {
      hide Valid;
      var readable, view := GetWorkspace();
      if !readable || view.None? {
        LeaveGate(readable, false, Rejected);
        return InstallFailed;
      }
      if !view.value.ready {
        LeaveGate(readable, false, Rejected);
        return WorkspaceNotReady;
      }
      if !view.value.phase.WsReady? {
        LeaveGate(readable, false, Rejected);
        return WorkspaceNotReady;
      }
      if cfg.adopted {
        var found: bool := *;
        var o: Outcome := *;
        LeaveGate(readable, found, o);
        return if found && o.Ok? then Installed else InstallFailed;
      }
      var built := NewManager(copy.history, readable);
      if !built {
        return InstallFailed;
      }
      var ok := CallInstall();
      PatchMetaData(copy.history);
      r := if ok then Installed else InstallFailed;
    }

    method SleepModule(copy: Object) returns (ok: bool)
      requires Valid() && pc == Gating(Sleep) && mem == copy.history
      modifies this, service
      ensures Valid() && old(log) <= log
      ensures if crashed then pc.Idle? else pc == if ok then Settling(Sleep, true) else Idle
    {
      hide Valid;
      var readable, view := GetWorkspace();
      if !readable || view.None? || !view.value.ready
         || !(view.value.phase.WsReady? || view.value.phase.WsHibernated?)
      {
        LeaveGate(readable, false, Rejected);
        return false;
      }
      ok := NewManager(copy.history, readable);
      if ok {
        var h;
        ok, h := CallSleep(copy.history);
        PatchMetaData(h);
      }
    }

    method ResumeModule(copy: Object) returns (ok: bool)
      requires Valid() && pc == Gating(Resume) && mem == copy.history
      modifies this, service
      ensures Valid() && old(log) <= log
      ensures if crashed then pc.Idle? else pc == if ok then Settling(Resume, true) else Idle
    {
      hide Valid;
      var readable, view := GetWorkspace();
      if !readable || view.None? || !view.value.ready
         || !(view.value.phase.WsReady? || view.value.phase.WsHibernated?)
      {
        LeaveGate(readable, false, Rejected);
        return false;
      }
      ok := NewManager(copy.history, readable);
      if ok {
        ok := CallResume(copy.history);
        PatchMetaData(copy.history);
      }
    }

    method UninstallModule(copy: Object) returns (ok: bool)
      requires Valid() && pc == Gating(Uninstall) && mem == copy.history
      modifies this, service
      ensures Valid() && old(log) <= log && (if crashed then pc.Idle? else (pc.Settling? && pc.op.Uninstall?))
    {
      hide Valid;
      if cfg.adopted {
        LeaveGate(true, true, Ok);
        return true;
      }
      var readable, view := GetWorkspace();
      if !readable || view.None? {
        LeaveGate(readable, false, Rejected);
        return readable;
      }
      if !view.value.deleting {
        if !view.value.ready {
          LeaveGate(readable, false, Rejected);
          return false;
        }
        if !(view.value.phase.WsReady? || view.value.phase.WsHibernated? || view.value.phase.WsFailed?) {
          LeaveGate(readable, false, Rejected);
          return false;
        }
      }
      ok := NewManager(copy.history, readable);
      if ok {
        ok := CallUninstall();
      }
    }

    // ---------------------------------------------------------------- reconciling

    method HandleHibernation(copy: Object) returns (r: ReconcileResult)
      requires Valid() && !crashed && pc == HibernationPc(copy.phase, copy.hibernated)
      modifies this, service
      ensures Valid() && old(log) <= log && pc.Idle?
      ensures !r.Error? ==> r == Requeue(2)
    {
      hide Valid;
      var ok, m := true, copy;
      if m.phase.Ready? && m.hibernated {
        ok, m := SetPhase(Sleeping);
        if !ok {
          return Error;
        }
        ok := SleepModule(m);
        if !ok {
          return Error;
        }
        ok, m := SetPhase(Sleeped);
        if !ok {
          return Error;
        }
      }
      if m.phase.Sleeped? && !m.hibernated {
        ok, m := SetPhase(Resuming);
        if !ok {
          return Error;
        }
        ok := ResumeModule(m);
        if !ok {
          return Error;
        }
        ok, m := SetPhase(Ready);
        if !ok {
          return Error;
        }
      }
      r := Requeue(2);
    }

    method HandleEmptyPhase() returns (r: ReconcileResult)
      requires Valid() && pc.Finalizing?
      modifies this, service
      ensures Valid() && old(log) <= log && pc.Idle?
      ensures r == Requeue(5) ==> trace == old(trace)
      ensures r.Done? ==> obj.phase.Failed?
      ensures r.Requeue? ==> r.seconds == 2 || r.seconds == 5
    {
      hide Valid;
      var ok := AddFinalizer();
      if !ok {
        return Error;
      }
      var m;
      ok, m := SetPhase(Installing);
      if !ok {
        return Error;
      }
      var installed := InstallModule(m);
      if installed.WorkspaceNotReady? {
        return Requeue(5);
      }
      if installed.InstallFailed? {
        ok, m := SetPhase(Failed);
        return if ok then Done else Error;
      }
      ok, m := SetPhase(Ready);
      if !ok {
        return Error;
      }
      r := HandleHibernation(m);
    }

    method HandleDeletion(copy: Object) returns (r: ReconcileResult)
      requires Valid() && pc == if Deletable(copy.phase) then Announcing(Uninstall) else Idle
      modifies this, service
      ensures Valid() && old(log) <= log && pc.Idle?
      ensures !Deletable(copy.phase) ==> r == Requeue(2) && log == old(log)
      ensures Deletable(copy.phase) ==> r.Error? || (r.Done? && !obj.finalizer)
    {
      hide Valid;
      if !Deletable(copy.phase) {
        return Requeue(2);
      }
      var ok, m := SetPhase(Uninstalling);
      if !ok {
        return Error;
      }
      var uninstalled := UninstallModule(m);
      ok := RemoveFinalizer();
      r := if ok then Done else Error;
    }

    /** One reconcile, from an idle object to an idle object, possibly cut off by a crash, is a run of
        the protocol. */
    method Reconcile() returns (r: ReconcileResult)
      requires Valid() && pc.Idle? && !crashed
      modifies this, service
      ensures Valid() && old(log) <= log && pc.Idle?
      ensures ModuleRuns.InLanguage(trace)
    {
      r := ReconcileOnce();
      ModuleRuns.CallsInLanguage(cfg, start, log);
    }

    method ReconcileOnce() returns (r: ReconcileResult)
      requires Valid() && pc.Idle? && !crashed
      modifies this, service
      ensures Valid() && old(log) <= log && pc.Idle?
      ensures r.Requeue? ==> r.seconds == 2 || r.seconds == 5
    {
      hide Valid;
      var found, m, at := Fetch();
      if !found {
        var missing: bool := *;
        return if missing then Done else Error;
      }
      if m.deleting {
        r := HandleDeletion(m);
        return;
      }
      match m.phase
      case Empty => r := HandleEmptyPhase();
      case Ready => r := HandleHibernation(m);
      case Sleeped => r := HandleHibernation(m);
      case Failed => r := Done;
      case _ =>
        if TimedOut(m.lastActivity, at) {
          var ok, m' := SetPhase(Failed);
          return if ok then Done else Error;
        }
        r := Requeue(2);
    }

    /** The operator is started again. */
    method Restart()
      requires Valid()
      modifies this`crashed
      ensures Valid() && !crashed
    {
      hide Exec, Fresh;
      crashed := false;
    }

    /** The module's whole life: reconciles, each of them possibly cut off by a crash, restarts, and
        everything the environment does before and during them. */
    method Live()
      requires Valid() && pc.Idle?
      modifies this, service
      ensures Valid() && old(log) <= log && pc.Idle?
      ensures ModuleRuns.InLanguage(trace)
      ensures cfg.adopted ==> Install !in trace && Uninstall !in trace
      ensures obj.phase.Uninstalling? ==> obj.deleting
    {
      LiveOn();
      ModuleRuns.CallsInLanguage(cfg, start, log);
      ModuleRuns.InstallationFirst(cfg, start, log);
      if obj.phase.Uninstalling? {
        ModuleFate.UninstallingNeverExpires(cfg, start, log, Tick(0));
      }
    }

    method LiveOn()
      requires Valid() && pc.Idle?
      modifies this, service
      ensures Valid() && old(log) <= log && pc.Idle?
    {
      hide Valid;
      var rounds: nat := *;
      while rounds > 0
        invariant Valid() && old(log) <= log && pc.Idle?
      {
        Restart();
        var r := ReconcileOnce();
        rounds := rounds - 1;
      }
    }
  }

  lemma ForeignWorkload(r: Release, c: Cluster, k: Key, w: Workload)
    requires k in c && !Matches(r, k, c[k]) && !Matches(r, k, w)
    ensures Own(r, c[k := w]) == Own(r, c)
  {
  }
}
