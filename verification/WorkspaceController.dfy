/** The workspace reconciler as code.  As for modules, every API call lets the environment interfere
    and may fail, and the ghost log makes each execution a run of the workspace protocol. */
module WorkspaceController {
  import opened Common
  import opened ModuleSpecs
  import opened ModuleStore
  import opened Forking
  import opened CronIndex
  import opened WorkspaceProtocol
  import opened WorkspaceSteps
  import WorkspaceRuns
  import MP = ModuleProtocol

  /** Hangs: the reconcile waits for a lock that is never released. */
  datatype ReconcileResult = Finished | Requeue(seconds: nat) | Error | Hangs

  lemma SettingWrite(cfg: Config, ws: Workspace, now: int, pc: Pc, o: Outcome)
    requires pc.Setting?
    ensures WriteAt(cfg, ws, now, pc, o)
            == Written(if ws.stored && o.Landed() then ws.(status := StatusOf(pc.target, now)) else ws,
                       if ws.stored && o.Ok? then AfterSetting(cfg, pc.next, ws.auto) else Idle)
  {
    hide StatusOf, AfterSetting;
  }

  class WorkspaceReconciler<S> {
    const cfg: Config
    const clockwork: Clockwork<S>
    const store: Store
    const sleepCrons: CronManager<S>
    const wakeCrons: CronManager<S>
    var ws: Workspace
    var now: int
    var drafts: seq<Draft>

    ghost const start: State<S>
    ghost var log: seq<Action>
    ghost var pc: Pc
    ghost var listed: Modules
    ghost var born: seq<Birth>
    ghost var dropped: set<Name>
    ghost var forks: seq<bool>
    ghost var trace: seq<Event>

    ghost predicate Wired()
      reads this, sleepCrons, wakeCrons
    {
      && sleepCrons != wakeCrons && sleepCrons.clockwork == clockwork && wakeCrons.clockwork == clockwork
      && store.reliable == cfg.reliable && Agrees(sleepCrons.State()) && Agrees(wakeCrons.State()) && Fresh(cfg, start)
    }

    ghost function Snapshot(): State<S>
      requires Wired()
      reads this, store, sleepCrons, wakeCrons
    {
      State(ws, now, store.modules, sleepCrons.State(), wakeCrons.State(), pc,
            Progress(listed, drafts, born, dropped), forks, trace)
    }

    ghost predicate Valid()
      reads this, store, sleepCrons, wakeCrons
    {
      Wired() && Snapshot() == Exec(clockwork, cfg, start, log)
    }

    /** A workspace has just been created. */
    constructor (cfg: Config, clockwork: Clockwork<S>, store: Store, sleepCrons: CronManager<S>,
                 wakeCrons: CronManager<S>,
                 hibernated: bool, finalizer: bool, auto: Auto, now: int)
      requires sleepCrons != wakeCrons && sleepCrons.clockwork == clockwork && wakeCrons.clockwork == clockwork
      requires Agrees(sleepCrons.State()) && Agrees(wakeCrons.State())
      requires cfg.uid !in sleepCrons.ids && cfg.uid !in wakeCrons.ids && store.reliable == cfg.reliable
      ensures Valid() && this.cfg == cfg && log == [] && pc.Idle?
      ensures this.store == store && this.sleepCrons == sleepCrons && this.wakeCrons == wakeCrons
    {
      var created := Workspace(true, false, finalizer, hibernated, auto, Status(MP.NoPhase, false, None, None));
      this.cfg, this.clockwork, this.store := cfg, clockwork, store;
      this.sleepCrons, this.wakeCrons, this.ws, this.now := sleepCrons, wakeCrons, created, now;
      this.log, this.pc, this.forks, this.trace := [], Idle, [], [];
      this.drafts, this.listed, this.born, this.dropped := [], map[], [], {};
      this.start := State(created, now, store.modules, sleepCrons.State(), wakeCrons.State(), Idle, NOTHING, [], []);
    }

    /** Enters the step just taken in the log. */
    ghost method Log(before: State<S>, a: Action)
      requires Wired() && before == Exec(clockwork, cfg, start, log)
      requires Snapshot() == Next(clockwork, cfg, before, a)
      modifies this`log
      ensures Valid() && log == old(log) + [a]
    {
      hide Next, Fresh, Agrees;
      ExecAppend(clockwork, cfg, start, log, a);
      log := log + [a];
    }

    /** The environment acts any number of times: users and cron jobs edit the object, time passes,
        modules come, change and go, and other workspaces use the cron indexes. */
    method Interfere()
      requires Valid()
      modifies this`ws, this`now, this`log, this`drafts, this`born, this`dropped, store, sleepCrons, wakeCrons
      ensures Valid() && old(log) <= log
    {
      var rounds: nat := *;
      while rounds > 0
        invariant Valid() && old(log) <= log
      {
        InterfereOnce();
        rounds := rounds - 1;
      }
    }

    method InterfereOnce()
      requires Valid()
      modifies this`ws, this`now, this`log, this`drafts, this`born, this`dropped, store, sleepCrons, wakeCrons
      ensures Valid() && old(log) <= log
    {
      hide Next, Exec, Fresh, Agrees;
      ghost var before := Snapshot();
      if * {
        var value: bool := *;
        ws := if ws.stored then ws.(hibernated := value) else ws;
        EditStep(clockwork, cfg, before, SetHibernated(value));
        Log(before, SetHibernated(value));
      } else if * {
        var auto: Auto := *;
        ws := if ws.stored then ws.(auto := auto) else ws;
        EditStep(clockwork, cfg, before, SetAuto(auto));
        Log(before, SetAuto(auto));
      } else if * {
        ws := DeleteRequested(ws);
        EditStep(clockwork, cfg, before, RequestDelete);
        Log(before, RequestDelete);
      } else if * {
        var seconds: nat := *;
        now := now + seconds;
        EditStep(clockwork, cfg, before, Tick(seconds));
        Log(before, Tick(seconds));
      } else if * {
        store.modules := *;
        EditStep(clockwork, cfg, before, ModulesChange(store.modules));
        Log(before, ModulesChange(store.modules));
      } else if * {
        OthersUseCrons();
      } else {
        RunGoroutine();
      }
    }

    /** One of the goroutines of a fork creates its copy; a failure is only logged. */
    method RunGoroutine()
      requires Valid()
      modifies this`log, this`drafts, this`born, this`dropped, store
      ensures Valid() && old(log) <= log
    {
      hide Next, Exec, Fresh, Agrees;
      ghost var before := Snapshot();
      var i: int := *;
      if 0 <= i < |drafts| {
        var o, n := store.Create(drafts[i].source + "-", drafts[i].copy);
        if o.Landed() {
          born := born + [Birth(n, drafts[i].source)];
        } else {
          dropped := dropped + {drafts[i].source};
        }
        drafts := Others(drafts, i);
        SpawnStep(clockwork, cfg, before, i, o, n);
        Log(before, Spawn(i, o, n));
      }
    }

    method OthersUseCrons()
      requires Valid()
      modifies this`log, sleepCrons, wakeCrons
      ensures Valid() && old(log) <= log
    {
      hide Next, Exec, Fresh, Agrees, After;
      ghost var before := Snapshot();
      var op: Op := *;
      var wake: bool := *;
      if op.uid != cfg.uid {
        var crons := if wake then wakeCrons else sleepCrons;
        var r := Perform(crons, op);
        OtherCronStep(clockwork, cfg, before, wake, op);
        Log(before, OtherCron(wake, op));
      }
    }

    /** One operation on a cron index. */
    method Perform(crons: CronManager<S>, op: Op) returns (r: Answer)
      requires Agrees(crons.State())
      modifies crons
      ensures (crons.State(), r) == After(crons.clockwork, old(crons.State()), op) && Agrees(crons.State())
    {
      match op
      case AddOp(uid, spec, overwrite, at) => r := crons.Add(uid, spec, overwrite, at);
      case RemoveOp(uid) => r := crons.Remove(uid);
    }

    // ---------------------------------------------------------------- API calls

    /** Reads the object at the start of a reconcile. */
    method Fetch() returns (found: bool, copy: Workspace)
      requires Valid() && pc.Idle?
      modifies this, store, sleepCrons, wakeCrons
      ensures Valid() && old(log) <= log
      ensures found ==> copy.stored && pc == DispatchPc(copy)
      ensures !found ==> pc.Idle?
    {
      hide Valid, DispatchPc;
      Interfere();
      found, copy := FetchNow();
    }

    /** The read itself. */
    method FetchNow() returns (found: bool, copy: Workspace)
      requires Valid() && pc.Idle?
      modifies this`pc, this`log
      ensures Valid() && old(log) <= log
      ensures found ==> copy.stored && pc == DispatchPc(copy)
      ensures !found ==> pc.Idle?
    {
      hide Next, Exec, Fresh, Agrees;
      ghost var before := Snapshot();
      var readable: bool := *;
      found, copy := ws.stored && readable, ws;
      pc := if found then DispatchPc(copy) else Idle;
      StartStep(clockwork, cfg, before, readable);
      Log(before, Start(readable));
    }

    /** Adds the finalizer unless it is there. */
    method AddFinalizer() returns (ok: bool, copy: Workspace)
      requires Valid() && pc.Finalizing?
      modifies this, store, sleepCrons, wakeCrons
      ensures Valid() && old(log) <= log && pc == if ok then FinalizedPc(cfg, copy) else Idle
      ensures (ok ==> ws.finalizer) && forks == old(forks)
    {
      hide Valid, FinalizedPc, AfterSetting, StatusOf;
      Interfere();
      ok, copy := TryAddFinalizer();
    }

    /** The attempt that is not refused for a conflict. */
    method TryAddFinalizer() returns (ok: bool, copy: Workspace)
      requires Valid() && pc.Finalizing?
      modifies this`ws, this`pc, this`trace, this`log
      ensures Valid() && old(log) <= log && pc == if ok then FinalizedPc(cfg, copy) else Idle
      ensures (ok ==> ws.finalizer) && forks == old(forks)
    {
      hide Next, Exec, Fresh, Agrees;
      ghost var before := Snapshot();
      var o: Outcome := *;
      ok := ws.stored && !o.Rejected? && (o.Ok? || ws.finalizer);
      if ws.stored && o.Landed() {
        ws := ws.(finalizer := true);
      }
      copy := ws;
      pc := if ok then FinalizedPc(cfg, copy) else Idle;
      WriteStep(clockwork, cfg, before, o);
      Log(before, Write(o));
    }

    /** Reads the object, replaces its status and writes it back, retrying on conflict. */
    method SetStatus(t: Target) returns (ok: bool, copy: Workspace)
      requires Valid() && pc.Setting? && pc.target == t
      modifies this, store, sleepCrons, wakeCrons
      ensures Valid() && old(log) <= log
      ensures pc == if ok then AfterSetting(cfg, old(pc).next, copy.auto) else Idle
      ensures forks == old(forks)
      ensures ok ==> ws == copy && WorkspaceRuns.StatusFits(copy.status) && copy.status == StatusOf(t, now)
    {
      hide Valid, FinalizedPc, AfterSetting, StatusOf;
      Interfere();
      ok, copy := TrySetStatus(t);
    }

    /** The attempt that is not refused for a conflict. */
    method TrySetStatus(t: Target) returns (ok: bool, copy: Workspace)
      requires Valid() && pc.Setting? && pc.target == t
      modifies this`ws, this`pc, this`trace, this`log
      ensures Valid() && old(log) <= log
      ensures pc == if ok then AfterSetting(cfg, old(pc).next, copy.auto) else Idle
      ensures forks == old(forks)
      ensures ok ==> ws == copy && WorkspaceRuns.StatusFits(copy.status) && copy.status == StatusOf(t, now)
    {
      hide Next, Exec, Fresh, Agrees;
      ghost var before := Snapshot();
      var o: Outcome := *;
      WriteStep(clockwork, cfg, before, o);
      SettingWrite(cfg, ws, now, pc, o);
      hide WriteAt, AfterSetting;
      ok := ws.stored && o.Ok?;
      if ws.stored && o.Landed() {
        ws := ws.(status := match t
                            case ToReady => Status(MP.WsReady, true, Some(now), None)
                            case ToFailed => Status(MP.WsFailed, false, Some(now), None)
                            case ToHibernated => Status(MP.WsHibernated, true, Some(now), Some(now))
                            case ToInstalling => Status(MP.WsInstalling, false, Some(now), None));
      }
      copy := ws;
      pc := if ok then AfterSetting(cfg, pc.next, copy.auto) else Idle;
      Log(before, Write(o));
    }

    /** Provisions the virtual cluster, tears it down, or reads the source workspace. */
    method DoWork() returns (ok: bool)
      requires Valid() && (pc.Provisioning? || pc.Looking? || pc.TearingDown?)
      modifies this, store, sleepCrons, wakeCrons
      ensures Valid() && old(log) <= log && pc == AfterWork(old(pc), ok) && forks == old(forks)
    {
      hide Valid, AfterWork;
      Interfere();
      ok := WorkNow();
    }

    /** The call itself. */
    method WorkNow() returns (ok: bool)
      requires Valid() && (pc.Provisioning? || pc.Looking? || pc.TearingDown?)
      modifies this`pc, this`trace, this`log
      ensures Valid() && old(log) <= log && pc == AfterWork(old(pc), ok) && forks == old(forks)
    {
      hide Next, Exec, Fresh, Agrees;
      ghost var before := Snapshot();
      ok := *;
      trace := if pc.TearingDown? then trace + [TornDown(ok)] else trace;
      pc := AfterWork(pc, ok);
      WorkStep(clockwork, cfg, before, ok);
      Log(before, Work(ok));
    }

    /** Removes the finalizer if it is there. */
    method RemoveFinalizer() returns (ok: bool)
      requires Valid() && pc.Releasing?
      modifies this, store, sleepCrons, wakeCrons
      ensures Valid() && old(log) <= log && pc.Idle? && (ok ==> !ws.finalizer)
    {
      hide Valid;
      Interfere();
      ok := TryRemoveFinalizer();
    }

    /** The attempt that is not refused for a conflict. */
    method TryRemoveFinalizer() returns (ok: bool)
      requires Valid() && pc.Releasing?
      modifies this`ws, this`pc, this`trace, this`log
      ensures Valid() && old(log) <= log && pc.Idle? && (ok ==> !ws.finalizer)
    {
      hide Next, Exec, Fresh, Agrees;
      ghost var before := Snapshot();
      var o: Outcome := *;
      ok := ws.stored && !o.Rejected? && (o.Ok? || !ws.finalizer);
      if ws.stored && ws.finalizer && o.Landed() {
        ws := ws.(finalizer := false, stored := false);
        trace := trace + [Released];
      }
      pc := Idle;
      WriteStep(clockwork, cfg, before, o);
      Log(before, Write(o));
    }

    /** The pending operation on one of the cron indexes. */
    method UseCron(crons: CronManager<S>, op: Op, at: int) returns (r: Answer)
      requires Valid() && at == now && CronOp(cfg, pc, now) == Some(op)
      requires crons == if OnSleeps(pc) then sleepCrons else wakeCrons
      modifies this`pc, this`log, sleepCrons, wakeCrons
      ensures Valid() && old(log) <= log && pc == AfterCron(cfg, old(pc), r)
    {
      hide Next, Exec, Fresh, Agrees, After;
      ghost var before := Snapshot();
      r := Perform(crons, op);
      assert OnSleeps(pc) != OnWakes(pc);
      pc := AfterCron(cfg, pc, r);
      CronStep(clockwork, cfg, before);
      Log(before, Cron);
    }

    /** Without an auto-hibernation section the indexes are left alone. */
    ghost method SkipCron()
      requires Valid() && (pc == Scheduling(NoAuto) || pc == Waking(NoAuto))
      modifies this`pc, this`log
      ensures Valid() && old(log) <= log && pc == AfterCron(cfg, old(pc), Done)
    {
      hide Next, Exec, Fresh, Agrees, Stepped;
      var before := Snapshot();
      pc := AfterCron(cfg, pc, Done);
      CronStep(clockwork, cfg, before);
      Log(before, Cron);
    }

    // ---------------------------------------------------------------- handlers

    method HandleAutoHibernation(copy: Workspace) returns (r: ReconcileResult)
      requires Valid() && pc == Scheduling(copy.auto)
      modifies this, store, sleepCrons, wakeCrons
      ensures Valid() && old(log) <= log
      ensures r == (if pc.Stuck? then Hangs else Finished) && (!pc.Stuck? ==> pc.Idle?)
    {
      hide Valid, Agrees;
      Interfere();
      var a: Answer;
      match copy.auto {
        case NoAuto =>
          SkipCron();
          SkipCron();
          return Finished;
        case AutoOff =>
          a := UseCron(sleepCrons, RemoveOp(cfg.uid), now);
          if a.Blocked? {
            return Hangs;
          }
          Interfere();
          a := UseCron(wakeCrons, RemoveOp(cfg.uid), now);
        case AutoOn(schedule, wake) =>
          a := UseCron(sleepCrons, AddOp(cfg.uid, schedule, true, now), now);
          if a.Blocked? {
            return Hangs;
          }
          Interfere();
          if wake.Some? {
            a := UseCron(wakeCrons, AddOp(cfg.uid, wake.value, true, now), now);
          } else {
            a := UseCron(wakeCrons, RemoveOp(cfg.uid), now);
          }
      }
      r := if a.Blocked? then Hangs else Finished;
    }

    method FanOutModules(down: bool, copy: Workspace) returns (ok: bool)
      requires Valid() && pc == FanningOut(down) && down == copy.status.hibernatedAt.None?
      modifies this, store, sleepCrons, wakeCrons
      ensures Valid() && old(log) <= log
      ensures pc == if !ok then Setting(ToFailed, ThenStop)
                    else Setting(if down then ToHibernated else ToReady, ThenSchedule)
    {
      hide Valid;
      Interfere();
      ok := FanOutNow(down, copy);
    }

    /** The fan-out itself. */
    method FanOutNow(down: bool, copy: Workspace) returns (ok: bool)
      requires Valid() && pc == FanningOut(down) && down == copy.status.hibernatedAt.None?
      modifies this`pc, this`log, store
      ensures Valid() && old(log) <= log
      ensures pc == if !ok then Setting(ToFailed, ThenStop)
                    else Setting(if down then ToHibernated else ToReady, ThenSchedule)
    {
      hide Next, Exec, Fresh, Agrees, SetFlagsOn, SetFlags;
      ghost var before := Snapshot();
      ghost var hit := {};
      if down {
        ok, hit := store.SleepModules(cfg.ref, copy.status.hibernatedAt.Some?);
      } else {
        ok := store.ResumeModules(cfg.ref, copy.status.hibernatedAt.None?);
      }
      pc := if !ok then Setting(ToFailed, ThenStop) else Setting(if down then ToHibernated else ToReady, ThenSchedule);
      FanOutStep(clockwork, cfg, before, ok, hit);
      Log(before, FanOut(ok, hit));
    }

    /** `copy` is refreshed by the status write. */
    method HandleHibernation(copy: Workspace) returns (ok: bool, copy': Workspace)
      requires Valid() && pc == HibernationPc(copy)
      modifies this, store, sleepCrons, wakeCrons
      ensures Valid() && old(log) <= log && pc == if ok then Scheduling(copy'.auto) else Idle
    {
      hide Valid;
      ok, copy' := true, copy;
      if copy.status.hibernatedAt.None? && copy.hibernated {
        var fanned := FanOutModules(true, copy);
        ok, copy' := SetStatus(if fanned then ToHibernated else ToFailed);
        ok := ok && fanned;
      } else if copy.status.hibernatedAt.Some? && !copy.hibernated {
        var fanned := FanOutModules(false, copy);
        ok, copy' := SetStatus(if fanned then ToReady else ToFailed);
        ok := ok && fanned;
      }
    }

    /** Starts a goroutine for each of the source's modules; a refusal is logged and asks for a retry. */
    method ForkWorkspace(source: WorkspaceRef) returns (ok: bool)
      requires Valid() && pc.Forking? && cfg.from == Some(source)
      modifies this, store, sleepCrons, wakeCrons
      ensures Valid() && old(log) <= log && pc == Scheduling(old(pc).auto)
      ensures forks == old(forks) + [ok] && |forks| <= 1
    {
      hide Valid;
      Interfere();
      ok := ForkNow(source);
    }

    /** The check and the drafts themselves. */
    method ForkNow(source: WorkspaceRef) returns (ok: bool)
      requires Valid() && pc.Forking? && cfg.from == Some(source)
      modifies this`pc, this`drafts, this`listed, this`born, this`dropped, this`forks, this`log
      ensures Valid() && old(log) <= log && pc == Scheduling(old(pc).auto)
      ensures forks == old(forks) + [ok] && |forks| <= 1
    {
      hide Next, Exec, Fresh, Agrees, ForkPlan;
      ghost var before := Snapshot();
      var plan;
      ok, plan := store.Fork(source, cfg.ref);
      if ok {
        listed, drafts, born, dropped := store.modules, plan, [], {};
      }
      forks := forks + [ok];
      pc := Scheduling(pc.auto);
      ForkStep(clockwork, cfg, before, ok, plan);
      Log(before, Fork(ok, plan));
      WorkspaceRuns.ForkAtMostOnce(clockwork, cfg, start, log);
    }

    method HandleEmptyPhase() returns (ok: bool, requeue: bool, copy: Workspace)
      requires Valid() && pc.Finalizing?
      modifies this, store, sleepCrons, wakeCrons
      ensures Valid() && old(log) <= log && pc == if ok then Scheduling(copy.auto) else Idle
      ensures forks == old(forks) || forks == old(forks) + [!requeue]
      ensures requeue ==> forks == old(forks) + [false]
    {
      hide Valid;
      requeue := false;
      ok, copy := AddFinalizer();
      if !ok {
        return;
      }
      if cfg.managed {
        ok, copy := SetStatus(ToInstalling);
        if !ok {
          return;
        }
        var installed := DoWork();
        if !installed {
          ok, copy := SetStatus(ToFailed);
          return false, false, copy;
        }
      } else if copy.hibernated {
        ok, copy := SetStatus(ToHibernated);
        return;
      }
      ok, copy := SetStatus(ToReady);
      if ok && cfg.from.Some? {
        var found := DoWork();
        if !found {
          var c;
          ok, c := SetStatus(ToFailed);
          return false, false, copy;
        }
        var forked := ForkWorkspace(cfg.from.value);
        requeue := !forked;
      }
    }

    /** Lists the modules of the workspace. */
    method ListModules() returns (ok: bool, names: seq<Name>)
      requires Valid() && pc.Listing?
      modifies this, store, sleepCrons, wakeCrons
      ensures Valid() && old(log) <= log && pc == if ok then Clearing(names) else Idle
    {
      hide Valid;
      Interfere();
      ok, names := ListNow();
    }

    /** The listing itself. */
    method ListNow() returns (ok: bool, names: seq<Name>)
      requires Valid() && pc.Listing?
      modifies this`pc, this`trace, this`log
      ensures Valid() && old(log) <= log && pc == if ok then Clearing(names) else Idle
    {
      hide Next, Exec, Fresh, Agrees;
      ghost var before := Snapshot();
      var copies;
      ok, names, copies := store.List(cfg.ref);
      trace := if ok then trace + [Listed(names)] else trace;
      pc := if ok then Clearing(names) else Idle;
      ListStep(clockwork, cfg, before, ok, names);
      Log(before, List(ok, names));
    }

    method RequestModuleDeletion(n: Name) returns (ok: bool)
      requires Valid() && pc.Deleting? && pc.done < |pc.names| && pc.names[pc.done] == n
      modifies this, store, sleepCrons, wakeCrons
      ensures Valid() && old(log) <= log
      ensures pc == if ok then Awaiting(old(pc).names, old(pc).done, now)
                    else DeletingPc(cfg, old(pc).names, old(pc).done + 1)
    {
      hide Valid, DeletingPc;
      Interfere();
      ok := *;
      LogRequest(ok);
    }

    ghost method LogRequest(ok: bool)
      requires Valid() && pc.Deleting? && pc.done < |pc.names|
      modifies this`pc, this`trace, this`log
      ensures Valid() && old(log) <= log
      ensures pc == if ok then Awaiting(old(pc).names, old(pc).done, now)
                    else DeletingPc(cfg, old(pc).names, old(pc).done + 1)
    {
      hide Next, Exec, Fresh, Agrees;
      var before := Snapshot();
      DeleteStep(clockwork, cfg, before, ok);
      hide DeletingPc;
      trace := if ok then trace else trace + [Settled(pc.names[pc.done], Refused, 0)];
      pc := if ok then Awaiting(pc.names, pc.done, now) else DeletingPc(cfg, pc.names, pc.done + 1);
      Log(before, Delete(ok));
    }

    ghost method LogVerdict(gone: bool)
      requires Valid() && pc.Awaiting? && pc.done < |pc.names|
      requires if gone then pc.names[pc.done] !in store.modules else now - pc.since >= MODULE_DELETION_TIMEOUT
      modifies this`pc, this`trace, this`log
      ensures Valid() && old(log) <= log && pc == DeletingPc(cfg, old(pc).names, old(pc).done + 1)
    {
      hide Next, Exec, Fresh, Agrees;
      var before := Snapshot();
      trace := trace + [Settled(pc.names[pc.done], if gone then Gone else Expired, now - pc.since)];
      pc := DeletingPc(cfg, pc.names, pc.done + 1);
      SettleStep(clockwork, cfg, before, gone);
      Log(before, Settle(gone));
    }

    /** Time passes while the controller sleeps. */
    method Pause(seconds: nat)
      requires Valid()
      modifies this`now, this`log
      ensures Valid() && old(log) <= log && now == old(now) + seconds
    {
      hide Next, Exec, Fresh, Agrees;
      ghost var before := Snapshot();
      now := now + seconds;
      EditStep(clockwork, cfg, before, Tick(seconds));
      Log(before, Tick(seconds));
    }

    /** Deletes one module and polls until it is missing or sixty seconds have passed. */
    method DeleteModule(n: Name)
      requires Valid() && pc.Deleting? && pc.done < |pc.names| && pc.names[pc.done] == n
      modifies this, store, sleepCrons, wakeCrons
      ensures Valid() && old(log) <= log && pc == DeletingPc(cfg, old(pc).names, old(pc).done + 1)
    {
      hide Valid;
      var ok := RequestModuleDeletion(n);
      if !ok {
        return;
      }
      var deadline := now + MODULE_DELETION_TIMEOUT;
      var deleted := false;
      while now < deadline && !deleted
        invariant Valid() && old(log) <= log
        invariant pc == Awaiting(old(pc).names, old(pc).done, deadline - MODULE_DELETION_TIMEOUT)
        invariant deleted ==> n !in store.modules
        decreases if deleted || now >= deadline then 0 else deadline - now
      {
        var slack: int := *;
        Pause(if slack < 0 then 0 else slack);
        var ms: Modules := *;
        ModulesMove(ms);
        var readable: bool := *;
        if readable && n !in store.modules {
          deleted := true;
        } else {
          Pause(2);
        }
      }
      LogVerdict(deleted);
    }

    /** Meanwhile the module controllers work. */
    method ModulesMove(ms: Modules)
      requires Valid()
      modifies this`log, store
      ensures Valid() && old(log) <= log && store.modules == ms && now == old(now) && pc == old(pc)
    {
      hide Next, Exec, Fresh, Agrees;
      ghost var before := Snapshot();
      store.modules := ms;
      EditStep(clockwork, cfg, before, ModulesChange(ms));
      Log(before, ModulesChange(ms));
    }

    method HandleDeletion(copy: Workspace) returns (r: ReconcileResult)
      requires Valid() && pc == if Deletable(copy.status.phase) then Listing else Idle
      modifies this, store, sleepCrons, wakeCrons
      ensures Valid() && old(log) <= log && (if r.Hangs? then pc.Stuck? else pc.Idle?)
      ensures !Deletable(copy.status.phase) ==> r == Requeue(2) && log == old(log)
      ensures r.Finished? ==> !ws.finalizer
      ensures r.Requeue? ==> r.seconds == 2
    {
      hide Valid, Agrees;
      if !Deletable(copy.status.phase) {
        return Requeue(2);
      }
      var ok, names := ListModules();
      if !ok {
        return Error;
      }
      var a := UseCron(sleepCrons, RemoveOp(cfg.uid), now);
      if a.Blocked? {
        return Hangs;
      }
      a := UseCron(wakeCrons, RemoveOp(cfg.uid), now);
      if a.Blocked? {
        return Hangs;
      }
      for i := 0 to |names|
        invariant Valid() && old(log) <= log && pc == DeletingPc(cfg, names, i)
      {
        DeleteModule(names[i]);
      }
      if cfg.managed {
        var torn := DoWork();
      }
      ok := RemoveFinalizer();
      r := if ok then Finished else Error;
    }

    method ReconcileOnce() returns (r: ReconcileResult)
      requires Valid() && pc.Idle?
      modifies this, store, sleepCrons, wakeCrons
      ensures Valid() && old(log) <= log && (if r.Hangs? then pc.Stuck? else pc.Idle?)
      ensures r.Requeue? ==> r.seconds == 2 || r.seconds == 5
    {
      hide Valid;
      var found, copy := Fetch();
      if !found {
        var missing: bool := *;
        return if missing then Finished else Error;
      }
      if copy.deleting {
        r := HandleDeletion(copy);
        return;
      }
      var ok;
      if copy.status.phase.NoPhase? {
        // The requested retry of a refused fork is dropped here.
        var requeue;
        ok, requeue, copy := HandleEmptyPhase();
      } else if copy.status.phase.WsReady? || copy.status.phase.WsHibernated? {
        ok, copy := HandleHibernation(copy);
      } else {
        return if copy.status.phase.WsInstalling? then Requeue(5) else Finished;
      }
      if !ok {
        return Error;
      }
      r := HandleAutoHibernation(copy);
    }

    /** One reconcile, from an idle object to an idle object unless it hangs, is a run of the
        protocol; so the status fits, at most one fork was tried and deletion went in order. */
    method Reconcile() returns (r: ReconcileResult)
      requires Valid() && pc.Idle?
      modifies this, store, sleepCrons, wakeCrons
      ensures Valid() && old(log) <= log && (if r.Hangs? then pc.Stuck? else pc.Idle?)
      ensures WorkspaceRuns.StatusFits(ws.status) && |forks| <= 1 && WorkspaceRuns.Orderly(cfg, trace)
      ensures !ws.stored ==> cfg.uid !in sleepCrons.ids && cfg.uid !in wakeCrons.ids
    {
      r := ReconcileOnce();
      WorkspaceRuns.ReachableInv(clockwork, cfg, start, log);
    }

    /** The operator is restarted, losing the reconcile in flight, the goroutines of a fork, both cron
        indexes and their locks. */
    method Restart()
      requires Valid()
      modifies this`pc, this`log, this`drafts, this`dropped, sleepCrons, wakeCrons
      ensures Valid() && old(log) <= log && pc.Idle?
    {
      hide Next, Exec, Fresh;
      ghost var before := Snapshot();
      sleepCrons.locked, sleepCrons.ids, sleepCrons.entries, sleepCrons.nextId := false, map[], map[], 0;
      wakeCrons.locked, wakeCrons.ids, wakeCrons.entries, wakeCrons.nextId := false, map[], map[], 0;
      dropped := dropped + Sources(drafts);
      pc, drafts := Idle, [];
      CrashStep(clockwork, cfg, before);
      Log(before, Crash);
    }

    /** The workspace's whole life: reconciles, restarts and everything the environment does, in any
        order and number.  A reconcile that hangs ends only with a restart. */
    method Live()
      requires Valid() && pc.Idle?
      modifies this, store, sleepCrons, wakeCrons
      ensures Valid() && old(log) <= log
      ensures WorkspaceRuns.StatusFits(ws.status) && |forks| <= 1 && WorkspaceRuns.Orderly(cfg, trace)
      ensures !ws.stored ==> cfg.uid !in sleepCrons.ids && cfg.uid !in wakeCrons.ids
    {
      LiveOn();
      WorkspaceRuns.ReachableInv(clockwork, cfg, start, log);
    }

    method LiveOn()
      requires Valid() && pc.Idle?
      modifies this, store, sleepCrons, wakeCrons
      ensures Valid() && old(log) <= log
    {
      hide Valid;
      var hung := false;
      var rounds: nat := *;
      while rounds > 0
        invariant Valid() && old(log) <= log && (if hung then pc.Stuck? else pc.Idle?)
      {
        var restart: bool := *;
        Interfere();
        if restart {
          Restart();
          hung := false;
        } else if !hung {
          var r := ReconcileOnce();
          hung := r.Hangs?;
        }
        rounds := rounds - 1;
      }
    }
  }
}
