/** The steps of the workspace protocol one by one: what each changes, and that it changes nothing else. */
module WorkspaceSteps {
  import opened Common
  import opened ModuleStore
  import opened Forking
  import opened CronIndex
  import opened WorkspaceProtocol

  /** A step that is no cron operation and no crash leaves an index alone. */
  lemma IndexKept<S>(k: Clockwork<S>, c: Consistent<S>, a: Action)
    requires !a.Crash?
    ensures IndexAfter(k, c, None, a) == c
  {
    hide Agrees;
  }

  lemma IndexesKept<S>(k: Clockwork<S>, cfg: Config, s: State<S>, a: Action)
    requires !a.Cron? && !a.OtherCron? && !a.Crash? && CanHappen(cfg, s, a)
    ensures Next(k, cfg, s, a)
            == State(WsAfter(cfg, s, a), if a.Tick? then s.now + a.seconds else s.now, ModulesAfter(cfg, s, a),
                     s.sleeps, s.wakes, PcAfter(k, cfg, s, a), ForkAfter(cfg, s, a),
                     if a.Fork? then s.forks + [a.ok] else s.forks, Extended(s.trace, EventOf(cfg, s, a)))
  {
    hide Agrees, WsAfter, ModulesAfter, PcAfter, ForkAfter, EventOf, IndexAfter, Extended;
    IndexKept(k, s.sleeps, a);
    IndexKept(k, s.wakes, a);
  }

  lemma EditStep<S>(k: Clockwork<S>, cfg: Config, s: State<S>, a: Action)
    requires a.SetHibernated? || a.SetAuto? || a.RequestDelete? || a.Tick? || a.ModulesChange?
    ensures Next(k, cfg, s, a)
            == s.(ws := WsAfter(cfg, s, a), now := if a.Tick? then s.now + a.seconds else s.now,
                  modules := if a.ModulesChange? then a.modules else s.modules)
  {
    hide Agrees, Next;
    IndexesKept(k, cfg, s, a);
  }

  lemma StartStep<S>(k: Clockwork<S>, cfg: Config, s: State<S>, readable: bool)
    ensures Next(k, cfg, s, Start(readable))
            == s.(pc := if s.pc.Idle? && s.ws.stored && readable then DispatchPc(s.ws) else s.pc)
  {
    hide Agrees, Next, DispatchPc;
    IndexesKept(k, cfg, s, Start(readable));
  }

  lemma WriteStep<S>(k: Clockwork<S>, cfg: Config, s: State<S>, o: Outcome)
    ensures Next(k, cfg, s, Write(o))
            == s.(ws := WriteAt(cfg, s.ws, s.now, s.pc, o).ws, pc := WriteAt(cfg, s.ws, s.now, s.pc, o).pc,
                  trace := if s.pc.Releasing? && Drops(s.ws, o) then s.trace + [Released] else s.trace)
  {
    hide Agrees, Next, WriteAt, Drops;
    IndexesKept(k, cfg, s, Write(o));
  }

  lemma WorkStep<S>(k: Clockwork<S>, cfg: Config, s: State<S>, ok: bool)
    ensures Next(k, cfg, s, Work(ok))
            == s.(pc := AfterWork(s.pc, ok), trace := if s.pc.TearingDown? then s.trace + [TornDown(ok)] else s.trace)
  {
    hide Agrees, Next, AfterWork;
    IndexesKept(k, cfg, s, Work(ok));
  }

  lemma ForkStep<S>(k: Clockwork<S>, cfg: Config, s: State<S>, ok: bool, drafts: seq<Draft>)
    requires s.pc.Forking? && MayFork(cfg, s.modules, ok, drafts)
    ensures Next(k, cfg, s, Fork(ok, drafts))
            == s.(fork := if ok then Planned(s.modules, drafts) else s.fork, forks := s.forks + [ok],
                  pc := Scheduling(s.pc.auto))
  {
    hide Agrees, Next, MayFork;
    IndexesKept(k, cfg, s, Fork(ok, drafts));
  }

  lemma SpawnStep<S>(k: Clockwork<S>, cfg: Config, s: State<S>, i: nat, o: Outcome, n: Name)
    requires i < |s.fork.drafts| && n !in s.modules && (cfg.reliable ==> o.Ok?)
    ensures Next(k, cfg, s, Spawn(i, o, n))
            == s.(modules := if o.Landed() then s.modules[n := s.fork.drafts[i].copy] else s.modules,
                  fork := Spawned(s.fork, i, o.Landed(), n))
  {
    hide Agrees, Next, Spawned;
    IndexesKept(k, cfg, s, Spawn(i, o, n));
  }

  lemma FanOutStep<S>(k: Clockwork<S>, cfg: Config, s: State<S>, ok: bool, hit: set<Name>)
    requires s.pc.FanningOut? && MayFanOut(cfg, s.modules, s.pc.down, ok, hit)
    ensures Next(k, cfg, s, FanOut(ok, hit))
            == s.(modules := FannedOut(s.modules, s.pc.down, ok, hit),
                  pc := if !ok then Setting(ToFailed, ThenStop)
                        else Setting(if s.pc.down then ToHibernated else ToReady, ThenSchedule))
  {
    hide Agrees, Next, MayFanOut, FannedOut;
    IndexesKept(k, cfg, s, FanOut(ok, hit));
  }

  lemma ListStep<S>(k: Clockwork<S>, cfg: Config, s: State<S>, ok: bool, names: seq<Name>)
    requires s.pc.Listing? && MayList(cfg, s.modules, names)
    ensures Next(k, cfg, s, List(ok, names))
            == s.(pc := if ok then Clearing(names) else Idle,
                  trace := if ok then s.trace + [Listed(names)] else s.trace)
  {
    hide Agrees, Next, MayList;
    IndexesKept(k, cfg, s, List(ok, names));
  }

  lemma DeleteStep<S>(k: Clockwork<S>, cfg: Config, s: State<S>, ok: bool)
    requires s.pc.Deleting? && s.pc.done < |s.pc.names|
    ensures Next(k, cfg, s, Delete(ok))
            == s.(pc := if ok then Awaiting(s.pc.names, s.pc.done, s.now)
                        else DeletingPc(cfg, s.pc.names, s.pc.done + 1),
                  trace := if ok then s.trace else s.trace + [Settled(s.pc.names[s.pc.done], Refused, 0)])
  {
    hide Agrees, Next, DeletingPc;
    IndexesKept(k, cfg, s, Delete(ok));
  }

  lemma SettleStep<S>(k: Clockwork<S>, cfg: Config, s: State<S>, gone: bool)
    requires CanHappen(cfg, s, Settle(gone))
    ensures Next(k, cfg, s, Settle(gone))
            == s.(pc := DeletingPc(cfg, s.pc.names, s.pc.done + 1),
                  trace := s.trace + [Settled(s.pc.names[s.pc.done], if gone then Gone else Expired,
                                              s.now - s.pc.since)])
  {
    hide Agrees, Next, DeletingPc;
    IndexesKept(k, cfg, s, Settle(gone));
  }

  /** A cron operation works on one index. */
  lemma CronStep<S>(k: Clockwork<S>, cfg: Config, s: State<S>)
    ensures Next(k, cfg, s, Cron)
            == s.(sleeps := Applied(k, s.sleeps, if OnSleeps(s.pc) then CronOp(cfg, s.pc, s.now) else None).0,
                  wakes := Applied(k, s.wakes, if OnWakes(s.pc) then CronOp(cfg, s.pc, s.now) else None).0,
                  pc := AfterCron(cfg, s.pc, CronAnswer(k, cfg, s)))
  {
    hide Agrees, CronOp, AfterCron, CronAnswer, Applied;
  }

  lemma OtherCronStep<S>(k: Clockwork<S>, cfg: Config, s: State<S>, wake: bool, op: Op)
    requires op.uid != cfg.uid
    ensures Next(k, cfg, s, OtherCron(wake, op))
            == s.(sleeps := if wake then s.sleeps else Stepped(k, s.sleeps, op).0,
                  wakes := if wake then Stepped(k, s.wakes, op).0 else s.wakes)
  {
    hide Agrees, CronOp, Stepped;
  }

  lemma CrashStep<S>(k: Clockwork<S>, cfg: Config, s: State<S>)
    ensures Next(k, cfg, s, Crash)
            == s.(pc := Idle, fork := Abandoned(s.fork), sleeps := Index(false, map[], map[], 0),
                  wakes := Index(false, map[], map[], 0))
  {
    hide Agrees, CronOp, Abandoned, Applied;
  }
}
