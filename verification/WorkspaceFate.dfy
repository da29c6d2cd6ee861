/** What can still become of a workspace: which deletions complete, which workspaces never change
    again, and what hibernating and resuming leaves behind. */
module WorkspaceFate {
  import opened Common
  import opened ModuleSpecs
  import opened ModuleStore
  import opened Forking
  import opened CronIndex
  import opened WorkspaceProtocol
  import opened WorkspaceSteps
  import opened WorkspaceRuns
  import MP = ModuleProtocol

  lemma ExecConcat<S>(k: Clockwork<S>, cfg: Config, s: State<S>, u: seq<Action>, v: seq<Action>)
    ensures Exec(k, cfg, s, u + v) == Exec(k, cfg, Exec(k, cfg, s, u), v)
    decreases |v|
  {
    hide Next;
    if v == [] {
      assert u + v == u;
    } else {
      assert (u + v)[..|u + v| - 1] == u + v[..|v| - 1];
      ExecConcat(k, cfg, s, u, v[..|v| - 1]);
    }
  }

  lemma ExecOne<S>(k: Clockwork<S>, cfg: Config, s: State<S>, a: Action)
    ensures Exec(k, cfg, s, [a]) == Next(k, cfg, s, a)
  {
    hide Next;
    assert [a][..0] == [] && Exec(k, cfg, s, []) == s;
  }

  // ---------------------------------------------------------------- the fork

  /** The first reconcile up to phase ready, nothing failing: the finalizer and, for a managed workspace,
      the provisioning in phase installing come first. */
  ghost function FirstReady<S>(k: Clockwork<S>, cfg: Config, s: State<S>): State<S> {
    var finalized := Next(k, cfg, Next(k, cfg, s, Start(true)), Write(Ok));
    if cfg.managed then Next(k, cfg, Next(k, cfg, Next(k, cfg, finalized, Write(Ok)), Work(true)), Write(Ok))
    else Next(k, cfg, finalized, Write(Ok))
  }

  ghost predicate New<S>(s: State<S>) {
    s.pc.Idle? && s.ws.stored && !s.ws.deleting && s.ws.status.phase.NoPhase?
  }

  /** Managed workspaces get there even if they are flagged hibernated.  Then the source is looked up, if
      there is one, and else the schedules are registered. */
  lemma FirstReadyIs<S>(k: Clockwork<S>, cfg: Config, s: State<S>)
    requires New(s) && (cfg.managed || !s.ws.hibernated)
    ensures FirstReady(k, cfg, s)
            == s.(ws := s.ws.(finalizer := true, status := Status(MP.WsReady, true, Some(s.now), None)),
                  pc := if cfg.from.Some? then Looking(s.ws.auto) else Scheduling(s.ws.auto))
  {
    hide Agrees, Next;
    StartStep(k, cfg, s, true);
    var s1 := Next(k, cfg, s, Start(true));
    WriteStep(k, cfg, s1, Ok);
    var s2 := Next(k, cfg, s1, Write(Ok));
    WriteStep(k, cfg, s2, Ok);
    if cfg.managed {
      var s3 := Next(k, cfg, s2, Write(Ok));
      assert s3.pc.Provisioning? && s3.ws.status.phase.WsInstalling?;
      WorkStep(k, cfg, s3, true);
      WriteStep(k, cfg, Next(k, cfg, s3, Work(true)), Ok);
    }
  }

  /** The one chance is taken: with every write acknowledged and the source found, the first reconcile
      of a workspace that is managed or does not start hibernated tries the fork, then goes on to its
      schedules whatever the fork answers. */
  lemma FirstReconcileForks<S>(k: Clockwork<S>, cfg: Config, s: State<S>, ok: bool, drafts: seq<Draft>)
    requires New(s) && (cfg.managed || !s.ws.hibernated)
    requires cfg.from.Some? && MayFork(cfg, s.modules, ok, drafts)
    ensures var t := Next(k, cfg, Next(k, cfg, FirstReady(k, cfg, s), Work(true)), Fork(ok, drafts));
            && t.forks == s.forks + [ok] && t.modules == s.modules && t.ws.finalizer
            && (ok ==> t.fork == Planned(s.modules, drafts))
            && t.ws.status.phase.WsReady? && t.pc == Scheduling(s.ws.auto)
  {
    hide Agrees, Next, MayFork, FirstReady;
    FirstReadyIs(k, cfg, s);
    WorkStep(k, cfg, FirstReady(k, cfg, s), true);
    ForkStep(k, cfg, Next(k, cfg, FirstReady(k, cfg, s), Work(true)), ok, drafts);
  }

  /** A workspace that is not managed and starts hibernated becomes hibernated, and its modules are left
      alone. */
  lemma StartsHibernated<S>(k: Clockwork<S>, cfg: Config, s: State<S>)
    requires New(s) && !cfg.managed && s.ws.hibernated
    ensures var t := Next(k, cfg, Next(k, cfg, Next(k, cfg, s, Start(true)), Write(Ok)), Write(Ok));
            && t.ws.status == Status(MP.WsHibernated, true, Some(s.now), Some(s.now)) && t.ws.finalizer
            && t.modules == s.modules && t.forks == s.forks && t.pc == Scheduling(s.ws.auto)
  {
    hide Agrees, Next;
    StartStep(k, cfg, s, true);
    var s1 := Next(k, cfg, s, Start(true));
    WriteStep(k, cfg, s1, Ok);
    WriteStep(k, cfg, Next(k, cfg, s1, Write(Ok)), Ok);
  }

  /** A failed provisioning, a source workspace that cannot be read, and a fan-out whose listing fails all
      end the reconcile with a failed workspace and no module touched. */
  lemma FailuresEnd<S>(k: Clockwork<S>, cfg: Config, s: State<S>, a: Action)
    requires s.ws.stored && CanHappen(cfg, s, a)
    requires (a == Work(false) && (s.pc.Provisioning? || s.pc.Looking?)) || (a.FanOut? && !a.ok)
    ensures var t := Next(k, cfg, Next(k, cfg, s, a), Write(Ok));
            && t.ws.status == Status(MP.WsFailed, false, Some(s.now), None) && t.pc.Idle?
            && t.modules == s.modules && t.forks == s.forks
  {
    hide Agrees, Next, MayFanOut;
    if a.FanOut? {
      FanOutStep(k, cfg, s, a.ok, a.hit);
    } else {
      WorkStep(k, cfg, s, false);
    }
    WriteStep(k, cfg, Next(k, cfg, s, a), Ok);
  }

  // ---------------------------------------------------------------- dormant workspaces

  /** No reconcile will do anything with it: it has failed, or its first installation was cut off. */
  ghost predicate Dormant<S>(s: State<S>) {
    && s.pc.Idle? && s.ws.stored && s.ws.finalizer
    && ((s.ws.status.phase.WsFailed? && !s.ws.deleting) || s.ws.status.phase.WsInstalling?)
  }

  lemma DormantStep<S>(k: Clockwork<S>, cfg: Config, s: State<S>, a: Action)
    requires Dormant(s) && (a.RequestDelete? ==> s.ws.status.phase.WsInstalling?)
    ensures var s' := Next(k, cfg, s, a); Dormant(s') && s'.ws.status == s.ws.status && s'.forks == s.forks
  {
    hide Agrees, MayFork, MayFanOut, MayList, ModulesAfter, IndexAfter, ForkAfter, EventOf, CronAnswer;
  }

  /** A failed workspace stays failed until its deletion is requested (so one failed listing during
      hibernation ends its life); one left in phase installing stays so for ever and cannot even be
      deleted. */
  lemma {:induction false} DormantForever<S>(k: Clockwork<S>, cfg: Config, s: State<S>, run: seq<Action>)
    requires Dormant(s) && (RequestDelete in run ==> s.ws.status.phase.WsInstalling?)
    ensures var s' := Exec(k, cfg, s, run); Dormant(s') && s'.ws.status == s.ws.status && s'.forks == s.forks
  {
    hide Next, Dormant;
    if run != [] {
      var u, a := run[..|run| - 1], run[|run| - 1];
      assert (RequestDelete in u ==> RequestDelete in run) && a in run;
      DormantForever(k, cfg, s, u);
      DormantStep(k, cfg, Exec(k, cfg, s, u), a);
    }
  }

  /** A reconcile that waits for a lock never ends, and no other one starts for this workspace. */
  lemma {:induction false} StuckForever<S>(k: Clockwork<S>, cfg: Config, s: State<S>, run: seq<Action>)
    requires s.pc.Stuck? && Crash !in run
    ensures var s' := Exec(k, cfg, s, run); s'.pc.Stuck? && s'.ws.status == s.ws.status && s'.trace == s.trace
  {
    hide Next;
    if run != [] {
      var u, a := run[..|run| - 1], run[|run| - 1];
      assert Crash !in u && a in run;
      StuckForever(k, cfg, s, u);
      StuckStep(k, cfg, Exec(k, cfg, s, u), a);
    }
  }

  lemma StuckStep<S>(k: Clockwork<S>, cfg: Config, s: State<S>, a: Action)
    requires s.pc.Stuck? && !a.Crash?
    ensures var s' := Next(k, cfg, s, a); s'.pc.Stuck? && s'.ws.status == s.ws.status && s'.trace == s.trace
  {
    hide Agrees, MayFork, MayFanOut, MayList, ModulesAfter, IndexAfter, ForkAfter, CronAnswer;
  }

  /** Registering the sleep schedule gets stuck exactly when the lock is held or the workspace's
      entry would next fire at another time than the new schedule. */
  lemma SchedulingStuckIff<S>(k: Clockwork<S>, cfg: Config, s: State<S>)
    requires s.pc.Scheduling? && s.pc.auto.AutoOn?
    ensures Next(k, cfg, s, Cron).pc.Stuck? <==>
            || s.sleeps.locked
            || (&& cfg.uid in s.sleeps.ids && s.sleeps.ids[cfg.uid] in s.sleeps.entries
                && k.parse(s.pc.auto.schedule).Some?
                && k.next(s.sleeps.entries[s.sleeps.ids[cfg.uid]], s.now)
                   != k.next(k.parse(s.pc.auto.schedule).value, s.now))
  {
    if !s.sleeps.locked {
      ReplaceBlocksIff(k, s.sleeps, cfg.uid, s.pc.auto.schedule, s.now);
    }
  }

  /** The workspace has an entry that next fires when the schedule says. */
  ghost predicate FiresAt<S>(k: Clockwork<S>, c: Index<S>, uid: Uid, schedule: string, now: int) {
    && uid in c.ids && c.ids[uid] in c.entries && k.parse(schedule).Some?
    && k.next(c.entries[c.ids[uid]], now) == k.next(k.parse(schedule).value, now)
  }

  /** What registering leaves in an index if it does not get stuck: an entry for the schedule, or what was
      there if the schedule does not parse. */
  lemma Registered<S>(k: Clockwork<S>, c: Consistent<S>, uid: Uid, schedule: string, now: int)
    requires !Stepped(k, c, AddOp(uid, schedule, true, now)).1.Blocked?
    ensures var d := Stepped(k, c, AddOp(uid, schedule, true, now)).0;
            if k.parse(schedule).Some? then FiresAt(k, d, uid, schedule, now) else d == c
  {
    if !c.locked && k.parse(schedule).Some? {
      AddFailsIff(k, c, uid, schedule, true, now);
      AddedFiresOnTime(k, c, uid, schedule, true, now);
    }
  }

  lemma Unregistered<S>(k: Clockwork<S>, c: Consistent<S>, uid: Uid)
    requires !Stepped(k, c, RemoveOp(uid)).1.Blocked?
    ensures uid !in Stepped(k, c, RemoveOp(uid)).0.ids
  {
  }

  /** What the auto-hibernation handler leaves in the two indexes when it does not hang: nothing changed
      without a section, no entry when it is switched off, and when it is on an entry that fires by the
      schedule in the one and an entry that fires by the wake schedule, or none, in the other. */
  lemma SchedulesRegistered<S>(k: Clockwork<S>, cfg: Config, s: State<S>)
    requires s.pc.Scheduling? && Next(k, cfg, Next(k, cfg, s, Cron), Cron).pc.Idle?
    ensures var t := Next(k, cfg, Next(k, cfg, s, Cron), Cron);
            match s.pc.auto
            case NoAuto => t.sleeps == s.sleeps && t.wakes == s.wakes
            case AutoOff => cfg.uid !in t.sleeps.ids && cfg.uid !in t.wakes.ids
            case AutoOn(schedule, wake) =>
              && (if k.parse(schedule).Some? then FiresAt(k, t.sleeps, cfg.uid, schedule, s.now)
                  else t.sleeps == s.sleeps)
              && (if wake.None? then cfg.uid !in t.wakes.ids
                  else if k.parse(wake.value).Some? then FiresAt(k, t.wakes, cfg.uid, wake.value, s.now)
                  else t.wakes == s.wakes)
  {
    hide Agrees, Next, Stepped, FiresAt;
    CronStep(k, cfg, s);
    var s1 := Next(k, cfg, s, Cron);
    CronStep(k, cfg, s1);
    assert !s1.pc.Stuck?;
    assert s1.pc == Waking(s.pc.auto) && s1.now == s.now && s1.wakes == s.wakes;
    match s.pc.auto
    case NoAuto =>
    case AutoOff =>
      Unregistered(k, s.sleeps, cfg.uid);
      Unregistered(k, s.wakes, cfg.uid);
    case AutoOn(schedule, wake) =>
      Registered(k, s.sleeps, cfg.uid, schedule, s.now);
      if wake.Some? {
        Registered(k, s.wakes, cfg.uid, wake.value, s.now);
      } else {
        Unregistered(k, s.wakes, cfg.uid);
      }
  }

  // ---------------------------------------------------------------- deletion

  /** How the deletion of one module can go. */
  function VerdictRun(ms: Modules, v: Verdict): seq<Action> {
    match v
    case Refused => [Delete(false)]
    case Gone => [Delete(true)] + [ModulesChange(ms)] + [Settle(true)]
    case Expired => [Delete(true)] + [Tick(60)] + [Settle(false)]
  }

  /** The deletion of the first `n` modules, where module `i` gets verdict `vs[i]`. */
  function SettleRun(names: seq<Name>, vs: seq<Verdict>, rest: Modules, n: nat): seq<Action>
    requires n <= |vs| && n <= |names|
  {
    if n == 0 then [] else SettleRun(names, vs, rest, n - 1) + VerdictRun(rest - {names[n - 1]}, vs[n - 1])
  }

  /** One reconcile of a deleting workspace: list its modules, clear both crons, settle each module,
      tear down, drop the finalizer. */
  function DeletionPass(cfg: Config, names: seq<Name>, vs: seq<Verdict>, rest: Modules, torn: bool): seq<Action>
    requires |vs| == |names|
  {
    ([Start(true)] + [List(true, names)] + [Cron] + [Cron]) + SettleRun(names, vs, rest, |names|)
    + ((if cfg.managed then [Work(torn)] else []) + [Write(Ok)])
  }

  /** Removing an entry only waits for the lock. */
  lemma RemoveDone<S>(k: Clockwork<S>, c: Consistent<S>, uid: Uid)
    requires !c.locked
    ensures Stepped(k, c, RemoveOp(uid)).1.Done? && !Stepped(k, c, RemoveOp(uid)).0.locked
  {
  }

  lemma ClearingDone<S>(k: Clockwork<S>, cfg: Config, s: State<S>, names: seq<Name>)
    requires s.pc == Clearing(names) && !s.sleeps.locked && !s.wakes.locked
    ensures var s' := Next(k, cfg, Next(k, cfg, s, Cron), Cron);
            s'.pc == DeletingPc(cfg, names, 0) && s'.ws == s.ws
  {
    hide Agrees, Next, Stepped;
    RemoveDone(k, s.sleeps, cfg.uid);
    RemoveDone(k, s.wakes, cfg.uid);
    CronStep(k, cfg, s);
    var s1 := Next(k, cfg, s, Cron);
    assert s1.pc == ClearingWakes(names) && s1.wakes == s.wakes && s1.ws == s.ws;
    CronStep(k, cfg, s1);
  }

  lemma VerdictDone<S>(k: Clockwork<S>, cfg: Config, s: State<S>, names: seq<Name>, n: nat, ms: Modules, v: Verdict)
    requires n < |names| && s.pc == Deleting(names, n) && names[n] !in ms
    ensures var s' := Exec(k, cfg, s, VerdictRun(ms, v)); s'.pc == DeletingPc(cfg, names, n + 1) && s'.ws == s.ws
  {
    hide Agrees, Next, Exec, DeletingPc;
    ExecOne(k, cfg, s, Delete(!v.Refused?));
    DeleteStep(k, cfg, s, !v.Refused?);
    var s1 := Next(k, cfg, s, Delete(!v.Refused?));
    if !v.Refused? {
      var mid := if v.Gone? then ModulesChange(ms) else Tick(60);
      ExecAppend(k, cfg, s, [Delete(true)], mid);
      ExecAppend(k, cfg, s, [Delete(true)] + [mid], Settle(v.Gone?));
      SettleDone(k, cfg, s1, mid, ms, v.Gone?);
    }
  }

  lemma SettleDone<S>(k: Clockwork<S>, cfg: Config, s: State<S>, mid: Action, ms: Modules, gone: bool)
    requires s.pc.Awaiting? && s.pc.done < |s.pc.names| && s.pc.names[s.pc.done] !in ms && s.now == s.pc.since
    requires mid == if gone then ModulesChange(ms) else Tick(60)
    ensures var s' := Next(k, cfg, Next(k, cfg, s, mid), Settle(gone));
            s'.pc == DeletingPc(cfg, s.pc.names, s.pc.done + 1) && s'.ws == s.ws
  {
    hide Agrees, Next, DeletingPc;
    EditStep(k, cfg, s, mid);
    SettleStep(k, cfg, Next(k, cfg, s, mid), gone);
  }

  lemma {:induction false} SettlingDone<S>(k: Clockwork<S>, cfg: Config, s: State<S>, names: seq<Name>,
                                           vs: seq<Verdict>, rest: Modules, n: nat)
    requires s.pc == DeletingPc(cfg, names, 0) && |vs| == |names| && n <= |names|
    ensures var s' := Exec(k, cfg, s, SettleRun(names, vs, rest, n));
            s'.pc == DeletingPc(cfg, names, n) && s'.ws == s.ws
  {
    hide Next, VerdictRun;
    if n > 0 {
      SettlingDone(k, cfg, s, names, vs, rest, n - 1);
      var u := SettleRun(names, vs, rest, n - 1);
      VerdictDone(k, cfg, Exec(k, cfg, s, u), names, n - 1, rest - {names[n - 1]}, vs[n - 1]);
      ExecConcat(k, cfg, s, u, VerdictRun(rest - {names[n - 1]}, vs[n - 1]));
    }
  }

  lemma ReleasingDone<S>(k: Clockwork<S>, cfg: Config, s: State<S>, torn: bool)
    requires s.pc == (if cfg.managed then TearingDown else Releasing) && s.ws.stored && s.ws.finalizer
    ensures !Exec(k, cfg, s, (if cfg.managed then [Work(torn)] else []) + [Write(Ok)]).ws.stored
  {
    hide Agrees, Next, Exec;
    var u: seq<Action> := if cfg.managed then [Work(torn)] else [];
    ExecConcat(k, cfg, s, u, [Write(Ok)]);
    ExecOne(k, cfg, s, Work(torn));
    WorkStep(k, cfg, s, torn);
    Nothing(k, cfg, s);
    ExecOne(k, cfg, Exec(k, cfg, s, u), Write(Ok));
    WriteStep(k, cfg, Exec(k, cfg, s, u), Ok);
  }

  lemma Nothing<S>(k: Clockwork<S>, cfg: Config, s: State<S>)
    ensures Exec(k, cfg, s, []) == s
  {
  }

  /** With both locks free, a deleting workspace that is ready, hibernated or failed is gone after
      one reconcile whose API writes are acknowledged, whatever the verdicts on its modules are and
      whether or not the teardown succeeds. */
  lemma DeletionCompletes<S>(k: Clockwork<S>, cfg: Config, s: State<S>, names: seq<Name>, vs: seq<Verdict>,
                             rest: Modules, torn: bool)
    requires Inv(cfg, s) && s.pc.Idle? && s.ws.stored && s.ws.deleting && Deletable(s.ws.status.phase)
    requires !s.sleeps.locked && !s.wakes.locked
    requires Distinct(names) && Elems(names) == RelatedNames(s.modules, cfg.ref) && |vs| == |names|
    ensures !Exec(k, cfg, s, DeletionPass(cfg, names, vs, rest, torn)).ws.stored
  {
    hide TraceFits, CronFits, ForkFits, StatusFits, Elems, RelatedNames, Distinct, ForkPlan, SettleRun;
    var s1 := Next(k, cfg, s, Start(true));
    var s2 := Next(k, cfg, s1, List(true, names));
    assert s2.pc == Clearing(names) && s2.ws == s.ws;
    ClearingDone(k, cfg, s2, names);
    var s4 := Next(k, cfg, Next(k, cfg, s2, Cron), Cron);
    Four(k, cfg, s, Start(true), List(true, names), Cron, Cron);
    hide Next;
    SettlingDone(k, cfg, s4, names, vs, rest, |names|);
    var settles := SettleRun(names, vs, rest, |names|);
    ReleasingDone(k, cfg, Exec(k, cfg, s4, settles), torn);
    var first, last := [Start(true)] + [List(true, names)] + [Cron] + [Cron],
                       (if cfg.managed then [Work(torn)] else []) + [Write(Ok)];
    ExecConcat(k, cfg, s, first, settles);
    ExecConcat(k, cfg, s, first + settles, last);
  }

  lemma NoCrashInVerdict(ms: Modules, v: Verdict)
    ensures Crash !in VerdictRun(ms, v)
  {
  }

  lemma {:induction false} NoCrashInside(names: seq<Name>, vs: seq<Verdict>, rest: Modules, n: nat)
    requires n <= |vs| && n <= |names|
    ensures Crash !in SettleRun(names, vs, rest, n)
  {
    hide VerdictRun;
    if n > 0 {
      NoCrashInside(names, vs, rest, n - 1);
      NoCrashInVerdict(rest - {names[n - 1]}, vs[n - 1]);
    }
  }

  lemma Four<S>(k: Clockwork<S>, cfg: Config, s: State<S>, a: Action, b: Action, c: Action, d: Action)
    ensures Exec(k, cfg, s, [a] + [b] + [c] + [d])
            == Next(k, cfg, Next(k, cfg, Next(k, cfg, Next(k, cfg, s, a), b), c), d)
  {
    hide Next, Exec;
    ExecOne(k, cfg, s, a);
    ExecAppend(k, cfg, s, [a], b);
    ExecAppend(k, cfg, s, [a] + [b], c);
    ExecAppend(k, cfg, s, [a] + [b] + [c], d);
  }

  /** The deletion cannot get past the phase test or a lock that is held for ever. */
  ghost predicate Barred<S>(s: State<S>) {
    && s.ws.stored && s.ws.deleting && s.ws.finalizer
    && (|| (!Deletable(s.ws.status.phase) && s.pc.Idle?)
        || (s.sleeps.locked && (s.pc.Idle? || s.pc.Listing? || s.pc.Clearing? || s.pc.Stuck?))
        || (s.wakes.locked && (s.pc.Idle? || s.pc.Listing? || s.pc.Clearing? || s.pc.ClearingWakes? || s.pc.Stuck?)))
  }

  lemma LockKept<S>(k: Clockwork<S>, c: Consistent<S>, op: Op)
    requires c.locked
    ensures Stepped(k, c, op) == (c, Blocked)
  {
  }

  lemma BarredStep<S>(k: Clockwork<S>, cfg: Config, s: State<S>, a: Action)
    requires Barred(s) && !a.Crash?
    ensures Barred(Next(k, cfg, s, a))
  {
    hide Agrees, MayFork, MayFanOut, MayList, ModulesAfter, ForkAfter, EventOf, Stepped;
    forall op | s.sleeps.locked
      ensures Stepped(k, s.sleeps, op) == (s.sleeps, Blocked)
    {
      LockKept(k, s.sleeps, op);
    }
    forall op | s.wakes.locked
      ensures Stepped(k, s.wakes, op) == (s.wakes, Blocked)
    {
      LockKept(k, s.wakes, op);
    }
  }

  lemma {:induction false} BarredForever<S>(k: Clockwork<S>, cfg: Config, s: State<S>, run: seq<Action>)
    requires Barred(s) && Crash !in run
    ensures Barred(Exec(k, cfg, s, run))
  {
    hide Next, Barred;
    if run != [] {
      var u, a := run[..|run| - 1], run[|run| - 1];
      assert Crash !in u && a in run;
      BarredForever(k, cfg, s, u);
      BarredStep(k, cfg, Exec(k, cfg, s, u), a);
    }
  }

  /** While the operator runs without a restart, the deletion of an idle workspace can complete
      exactly when its phase is ready, hibernated or failed and neither cron lock is held. */
  lemma DeletionIff<S>(k: Clockwork<S>, cfg: Config, s: State<S>)
    requires Inv(cfg, s) && s.pc.Idle? && s.ws.stored && s.ws.deleting
    ensures (exists run :: Crash !in run && !Exec(k, cfg, s, run).ws.stored) <==>
            && (s.ws.status.phase.WsReady? || s.ws.status.phase.WsHibernated? || s.ws.status.phase.WsFailed?)
            && !s.sleeps.locked && !s.wakes.locked
  {
    hide Next, TraceFits, CronFits, ForkFits, StatusFits, RelatedNames, SettleRun;
    if Deletable(s.ws.status.phase) && !s.sleeps.locked && !s.wakes.locked {
      var names := Enumerated(RelatedNames(s.modules, cfg.ref));
      var vs := seq(|names|, (i: int) => Expired);
      DeletionCompletes(k, cfg, s, names, vs, s.modules, true);
      var run := DeletionPass(cfg, names, vs, s.modules, true);
      NoCrashInside(names, vs, s.modules, |names|);
      assert Crash !in run && !Exec(k, cfg, s, run).ws.stored;
    } else {
      forall run | Crash !in run
        ensures Exec(k, cfg, s, run).ws.stored
      {
        BarredForever(k, cfg, s, run);
      }
    }
  }

  /** Any finite set can be listed without repetition. */
  ghost function Enumerated(names: set<Name>): (r: seq<Name>)
    ensures Distinct(r) && Elems(r) == names
  {
    if names == {} then [] else
      var n :| n in names;
      var rest := Enumerated(names - {n});
      assert n !in Elems(rest) && Elems([n] + rest) == {n} + Elems(rest) by {
        assert forall m | m in rest :: m in [n] + rest;
      }
      [n] + rest
  }

  // ---------------------------------------------------------------- hibernating and resuming

  /** A pass of the hibernation handler in which nothing fails, and the schedules after it. */
  function PassRun(hit: set<Name>): seq<Action> {
    [Start(true)] + [FanOut(true, hit)] + [Write(Ok)] + [Cron] + [Cron]
  }

  ghost predicate AtRest<S>(s: State<S>, hibernated: bool) {
    && s.pc.Idle? && s.ws.stored && !s.ws.deleting && StatusFits(s.ws.status)
    && (if hibernated then s.ws.status.phase.WsHibernated? else s.ws.status.phase.WsReady?)
  }

  /** A workspace that is as its flag says goes straight on to its schedules. */
  lemma NoPassNeeded<S>(k: Clockwork<S>, cfg: Config, s: State<S>)
    requires AtRest(s, s.ws.hibernated)
    ensures Next(k, cfg, s, Start(true)) == s.(pc := Scheduling(s.ws.auto))
  {
    hide Agrees, Next;
    StartStep(k, cfg, s, true);
  }

  /** Up to the schedules. */
  lemma PassSteps<S>(k: Clockwork<S>, cfg: Config, s: State<S>, hit: set<Name>)
    requires AtRest(s, !s.ws.hibernated) && CanHappen(cfg, s.(pc := FanningOut(s.ws.hibernated)), FanOut(true, hit))
    ensures var t := Next(k, cfg, Next(k, cfg, Next(k, cfg, s, Start(true)), FanOut(true, hit)), Write(Ok));
            && t.pc == Scheduling(s.ws.auto) && AtRest(t.(pc := Idle), s.ws.hibernated)
            && t.ws.hibernated == s.ws.hibernated
            && t.modules == FannedOut(s.modules, s.ws.hibernated, true, hit)
  {
    hide Agrees, Next, MayFanOut, FannedOut;
    StartStep(k, cfg, s, true);
    var s1 := Next(k, cfg, s, Start(true));
    assert s1 == s.(pc := FanningOut(s.ws.hibernated));
    FanOutStep(k, cfg, s1, true, hit);
    WriteStep(k, cfg, Next(k, cfg, s1, FanOut(true, hit)), Ok);
  }

  /** Registering schedules ends the reconcile or leaves it hanging; the object and the modules stay. */
  lemma SchedulesOnly<S>(k: Clockwork<S>, cfg: Config, s: State<S>)
    requires s.pc.Scheduling?
    ensures var t := Next(k, cfg, Next(k, cfg, s, Cron), Cron);
            t.ws == s.ws && t.modules == s.modules && (t.pc.Idle? || t.pc.Stuck?)
  {
    hide Agrees, Next, Applied, CronAnswer;
    CronStep(k, cfg, s);
    CronStep(k, cfg, Next(k, cfg, s, Cron));
  }

  lemma Pass<S>(k: Clockwork<S>, cfg: Config, s: State<S>, hit: set<Name>)
    requires AtRest(s, !s.ws.hibernated) && CanHappen(cfg, s.(pc := FanningOut(s.ws.hibernated)), FanOut(true, hit))
    ensures var t := Exec(k, cfg, s, PassRun(hit));
            && (t.pc.Idle? || t.pc.Stuck?) && AtRest(t.(pc := Idle), s.ws.hibernated)
            && t.ws.hibernated == s.ws.hibernated
            && t.modules == FannedOut(s.modules, s.ws.hibernated, true, hit)
  {
    hide Next, CanHappen, FannedOut, StatusFits;
    PassSteps(k, cfg, s, hit);
    var written := Next(k, cfg, Next(k, cfg, Next(k, cfg, s, Start(true)), FanOut(true, hit)), Write(Ok));
    SchedulesOnly(k, cfg, written);
    Four(k, cfg, s, Start(true), FanOut(true, hit), Write(Ok), Cron);
    ExecAppend(k, cfg, s, [Start(true)] + [FanOut(true, hit)] + [Write(Ok)] + [Cron], Cron);
  }

  /** As runs: hibernating a ready workspace without failures flags exactly its modules and frames all
      others.  If its schedules do not leave the reconcile hanging, clearing the workspace's flag and
      reconciling again ends with a ready workspace whose modules are all still flagged. */
  lemma HibernateResume<S>(k: Clockwork<S>, cfg: Config, s: State<S>)
    requires AtRest(s, false) && s.ws.hibernated
    ensures var related := RelatedNames(s.modules, cfg.ref);
            var asleep := Exec(k, cfg, s, PassRun(related));
            && asleep.ws.status.phase.WsHibernated? && OnlyFlagged(s.modules, cfg.ref, true, asleep.modules)
            && (asleep.pc.Idle? ==>
                  var awake := Exec(k, cfg, s, PassRun(related) + [SetHibernated(false)] + PassRun(related));
                  && awake.ws.status.phase.WsReady? && OnlyFlagged(s.modules, cfg.ref, true, awake.modules)
                  && forall n | n in s.modules && s.modules[n].spec.workspace == cfg.ref ::
                       awake.modules[n].spec.hibernated)
  {
    hide Next, StatusFits;
    var related := RelatedNames(s.modules, cfg.ref);
    Pass(k, cfg, s, related);
    AllFlagged(s.modules, cfg.ref, related, true);
    FlagsSet(s.modules, cfg.ref, true);
    var asleep := Exec(k, cfg, s, PassRun(related));
    if asleep.pc.Idle? {
      var told := Exec(k, cfg, s, PassRun(related) + [SetHibernated(false)]);
      ExecAppend(k, cfg, s, PassRun(related), SetHibernated(false));
      Told(k, cfg, asleep);
      FlagsKeepRelated(s.modules, cfg.ref, true);
      Pass(k, cfg, told, related);
      ExecConcat(k, cfg, s, PassRun(related) + [SetHibernated(false)], PassRun(related));
    }
  }

  lemma Told<S>(k: Clockwork<S>, cfg: Config, s: State<S>)
    requires s.ws.stored
    ensures Next(k, cfg, s, SetHibernated(false)) == s.(ws := s.ws.(hibernated := false))
  {
    hide Agrees, Next;
    EditStep(k, cfg, s, SetHibernated(false));
  }

  lemma FlagsKeepRelated(ms: Modules, ref: WorkspaceRef, value: bool)
    ensures RelatedNames(SetFlags(ms, ref, value), ref) == RelatedNames(ms, ref)
    ensures AllHit(SetFlags(ms, ref, value), ref, RelatedNames(ms, ref), true)
  {
  }

  /** The fact behind it: the workspace controller never clears a module's flag.  In every run in which
      nobody else changes modules, a module that is flagged stays flagged. */
  lemma {:induction false} FlagsNeverCleared<S>(k: Clockwork<S>, cfg: Config, s: State<S>, run: seq<Action>, n: Name)
    requires n in s.modules && s.modules[n].spec.hibernated
    requires forall i | 0 <= i < |run| :: !run[i].ModulesChange?
    ensures n in Exec(k, cfg, s, run).modules && Exec(k, cfg, s, run).modules[n].spec.hibernated
  {
    hide Next;
    if run != [] {
      FlagsNeverCleared(k, cfg, s, run[..|run| - 1], n);
      FlagKept(k, cfg, Exec(k, cfg, s, run[..|run| - 1]), run[|run| - 1], n);
    }
  }

  lemma FlagKept<S>(k: Clockwork<S>, cfg: Config, s: State<S>, a: Action, n: Name)
    requires n in s.modules && s.modules[n].spec.hibernated && !a.ModulesChange?
    ensures n in Next(k, cfg, s, a).modules && Next(k, cfg, s, a).modules[n].spec.hibernated
  {
    hide Agrees, MayFork, MayFanOut, MayList, IndexAfter, ForkAfter, EventOf, PcAfter, WsAfter;
  }

  /** With a reliable API server every hibernation pass flags exactly the workspace's modules. */
  lemma ReliableFanOut<S>(k: Clockwork<S>, cfg: Config, s: State<S>, ok: bool, hit: set<Name>)
    requires cfg.reliable && CanHappen(cfg, s, FanOut(ok, hit)) && s.pc.down
    ensures ok && OnlyFlagged(s.modules, cfg.ref, true, Next(k, cfg, s, FanOut(ok, hit)).modules)
  {
    FlagsSet(s.modules, cfg.ref, true);
    AllFlagged(s.modules, cfg.ref, hit, true);
  }
}
