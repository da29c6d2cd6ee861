/** What holds in every run of a workspace: the status fields agree with the phase, a fork is tried
    at most once, deletion goes in order, and a deleted workspace has no cron entry. */
module WorkspaceRuns {
  import opened Common
  import opened ModuleStore
  import opened CronIndex
  import opened WorkspaceProtocol
  import MP = ModuleProtocol

  // ---------------------------------------------------------------- the invariant

  predicate StatusFits(st: Status) {
    && (st.hibernatedAt.Some? <==> st.phase.WsHibernated?)
    && (st.ready <==> st.phase.WsReady? || st.phase.WsHibernated?)
    && !st.phase.WsTerminating?
  }

  /** Control points of the first reconcile up to and including the fork. */
  predicate BeforeFork(pc: Pc) {
    || pc.Finalizing? || pc.Provisioning? || pc.Looking? || pc.Forking?
    || (pc.Setting? && (pc.next.ThenProvision? || pc.next.ThenFork?))
  }

  /** A workspace is forked in the reconcile that gives it its first phase, or never. */
  ghost predicate ForkFits<S>(s: State<S>) {
    && |s.forks| <= 1
    && (BeforeFork(s.pc) || s.ws.status.phase.NoPhase? ==> s.forks == [])
    && (s.pc.Looking? || s.pc.Forking? ==> s.ws.status.phase.WsReady?)
    && (s.pc.Setting? && s.pc.next.ThenFork? ==> s.pc.target.ToReady?)
  }

  predicate Unwinding(pc: Pc) {
    pc.Deleting? || pc.Awaiting? || pc.TearingDown? || pc.Releasing?
  }

  /** The finalizer protects a workspace from the moment its handlers work on it. */
  ghost predicate FinalizerFits<S>(s: State<S>) {
    && (s.ws.stored && s.ws.deleting ==> s.ws.finalizer)
    && (s.ws.stored && !s.ws.status.phase.NoPhase? ==> s.ws.finalizer)
    && (!s.pc.Idle? && !s.pc.Finalizing? ==> s.ws.stored && s.ws.finalizer)
    && (!s.ws.stored ==> s.pc.Idle? || s.pc.Finalizing?)
    && (s.pc.Listing? || s.pc.Clearing? || s.pc.ClearingWakes? || Unwinding(s.pc) ==> s.ws.deleting)
  }

  /** Only a stored workspace with its finalizer has cron entries, and none once they are cleared. */
  ghost predicate CronFits<S>(cfg: Config, s: State<S>) {
    && (cfg.uid in s.sleeps.ids || cfg.uid in s.wakes.ids ==> s.ws.stored && s.ws.finalizer && !Unwinding(s.pc))
    && (s.pc.ClearingWakes? ==> cfg.uid !in s.sleeps.ids)
  }

  /** The events from the listing at `j` up to `k` are one verdict for each listed module, in order. */
  predicate Covers(trace: seq<Event>, j: nat, k: nat)
    requires j < k <= |trace|
  {
    trace[j].Listed? && k == j + 1 + |trace[j].names|
    && forall m | j < m < k :: trace[m].Settled? && trace[m].name == trace[j].names[m - j - 1]
  }

  predicate SettledBefore(trace: seq<Event>, k: nat)
    requires k <= |trace|
  {
    exists j: nat :: j < k && Covers(trace, j, k)
  }

  /** Teardown follows a verdict on each listed module; the finalizer goes after that, last of all. */
  predicate Orderly(cfg: Config, trace: seq<Event>) {
    && (forall k | 0 <= k < |trace| :: trace[k].TornDown? ==> cfg.managed && SettledBefore(trace, k))
    && (forall k | 0 <= k < |trace| :: trace[k].Released? ==> k == |trace| - 1 && MayRelease(cfg, trace, k))
  }

  /** Everything that has to precede the removal of the finalizer has been done. */
  predicate MayRelease(cfg: Config, trace: seq<Event>, k: nat)
    requires k <= |trace|
  {
    if cfg.managed then k > 0 && trace[k - 1].TornDown? else SettledBefore(trace, k)
  }

  /** What the control point knows about the trace. */
  ghost predicate TraceFits<S>(cfg: Config, s: State<S>) {
    var n := |s.trace|;
    && Orderly(cfg, s.trace)
    && (s.ws.stored ==> Released !in s.trace)
    && (s.pc.Clearing? || s.pc.ClearingWakes? ==> n > 0 && s.trace[n - 1] == Listed(s.pc.names))
    && (s.pc.Deleting? || s.pc.Awaiting? ==>
          && s.pc.done < |s.pc.names| && s.pc.done < n && s.trace[n - 1 - s.pc.done] == Listed(s.pc.names)
          && forall m | n - s.pc.done <= m < n ::
               s.trace[m].Settled? && s.trace[m].name == s.pc.names[m - (n - s.pc.done)])
    && (s.pc.TearingDown? ==> cfg.managed && SettledBefore(s.trace, n))
    && (s.pc.Releasing? ==> MayRelease(cfg, s.trace, n))
  }

  ghost predicate Inv<S>(cfg: Config, s: State<S>) {
    StatusFits(s.ws.status) && ForkFits(s) && FinalizerFits(s) && CronFits(cfg, s) && TraceFits(cfg, s)
  }

  // ---------------------------------------------------------------- every step keeps it

  /** The four status writers. */
  lemma WritersFit(t: Target, now: int)
    ensures StatusFits(StatusOf(t, now))
  {
  }

  lemma WrittenStatus(cfg: Config, ws: Workspace, now: int, pc: Pc, o: Outcome)
    ensures var st := WriteAt(cfg, ws, now, pc, o).ws.status;
            st == ws.status || (pc.Setting? && st == StatusOf(pc.target, now))
  {
    hide StatusOf, FinalizedPc, AfterSetting;
  }

  lemma StatusStep<S>(k: Clockwork<S>, cfg: Config, s: State<S>, a: Action)
    requires StatusFits(s.ws.status)
    ensures StatusFits(Next(k, cfg, s, a).ws.status)
  {
    hide Agrees, MayFork, MayFanOut, MayList, ModulesAfter, IndexAfter, ForkAfter, EventOf, CronAnswer, PcAfter,
      StatusFits, WriteAt, StatusOf;
    if a.Write? {
      WrittenStatus(cfg, s.ws, s.now, s.pc, a.o);
      if s.pc.Setting? {
        WritersFit(s.pc.target, s.now);
      }
    }
  }

  lemma ForkFitsWrite<S>(k: Clockwork<S>, cfg: Config, s: State<S>, o: Outcome)
    requires ForkFits(s)
    ensures ForkFits(Next(k, cfg, s, Write(o)))
  {
    hide Agrees, MayFork, MayFanOut, MayList, ModulesAfter, IndexAfter, ForkAfter, EventOf, CronAnswer;
  }

  lemma ForkFitsStep<S>(k: Clockwork<S>, cfg: Config, s: State<S>, a: Action)
    requires ForkFits(s)
    ensures ForkFits(Next(k, cfg, s, a))
  {
    hide Agrees, MayFork, MayFanOut, MayList, ModulesAfter, IndexAfter, ForkAfter, EventOf, CronAnswer, WriteAt;
    if a.Write? {
      ForkFitsWrite(k, cfg, s, a.o);
    }
  }

  lemma FinalizerWrite<S>(k: Clockwork<S>, cfg: Config, s: State<S>, o: Outcome)
    requires FinalizerFits(s)
    ensures FinalizerFits(Next(k, cfg, s, Write(o)))
  {
    hide Agrees, MayFork, MayFanOut, MayList, ModulesAfter, IndexAfter, ForkAfter, EventOf, CronAnswer, StatusOf;
  }

  lemma FinalizerStep<S>(k: Clockwork<S>, cfg: Config, s: State<S>, a: Action)
    requires FinalizerFits(s)
    ensures FinalizerFits(Next(k, cfg, s, a))
  {
    hide Agrees, MayFork, MayFanOut, MayList, ModulesAfter, IndexAfter, ForkAfter, EventOf, CronAnswer, WriteAt;
    if a.Write? {
      FinalizerWrite(k, cfg, s, a.o);
    }
  }

  /** An operation on one workspace's entry leaves the others' in or out of the table. */
  lemma OthersKept<S>(k: Clockwork<S>, c: Consistent<S>, op: Op, uid: Uid)
    ensures op.uid != uid ==> (uid in Stepped(k, c, op).0.ids <==> uid in c.ids)
    ensures op.RemoveOp? && op.uid == uid && !Stepped(k, c, op).1.Blocked? ==> uid !in Stepped(k, c, op).0.ids
    ensures op.RemoveOp? && uid in Stepped(k, c, op).0.ids ==> uid in c.ids
  {
  }

  /** Outside the reconcile's cron operations only crashes touch this workspace's entries. */
  lemma EntriesKept<S>(k: Clockwork<S>, cfg: Config, c: Consistent<S>, op: Option<Op>, a: Action)
    requires op.Some? ==> op.value.uid != cfg.uid
    ensures cfg.uid in IndexAfter(k, c, op, a).ids ==> cfg.uid in c.ids
  {
    hide Stepped;
    if op.Some? {
      OthersKept(k, c, op.value, cfg.uid);
    }
  }

  lemma CronWrite<S>(k: Clockwork<S>, cfg: Config, s: State<S>, o: Outcome)
    requires CronFits(cfg, s) && FinalizerFits(s)
    ensures CronFits(cfg, Next(k, cfg, s, Write(o)))
  {
    hide Agrees, ModulesAfter, ForkAfter, EventOf, Stepped, StatusOf, CronOp;
  }

  lemma CronOwn<S>(k: Clockwork<S>, cfg: Config, s: State<S>)
    requires CronFits(cfg, s) && FinalizerFits(s)
    ensures CronFits(cfg, Next(k, cfg, s, Cron))
  {
    hide Agrees, ModulesAfter, ForkAfter, EventOf, Stepped;
    if CronOp(cfg, s.pc, s.now).Some? {
      OthersKept(k, s.sleeps, CronOp(cfg, s.pc, s.now).value, cfg.uid);
      OthersKept(k, s.wakes, CronOp(cfg, s.pc, s.now).value, cfg.uid);
    }
  }

  lemma CronRest<S>(k: Clockwork<S>, cfg: Config, s: State<S>, a: Action)
    requires CronFits(cfg, s) && FinalizerFits(s) && !a.Cron? && !a.Write?
    ensures CronFits(cfg, Next(k, cfg, s, a))
  {
    hide Agrees, MayFork, MayFanOut, MayList, ModulesAfter, IndexAfter, ForkAfter, EventOf, CronAnswer, WriteAt, CronOp;
    if CanHappen(cfg, s, a) {
      EntriesKept(k, cfg, s.sleeps, SleepOp(cfg, s, a), a);
      EntriesKept(k, cfg, s.wakes, WakeOp(cfg, s, a), a);
    }
  }

  lemma CronFitsStep<S>(k: Clockwork<S>, cfg: Config, s: State<S>, a: Action)
    requires CronFits(cfg, s) && FinalizerFits(s)
    ensures CronFits(cfg, Next(k, cfg, s, a))
  {
    hide Next, CronFits, FinalizerFits;
    if a.Cron? {
      CronOwn(k, cfg, s);
    } else if a.Write? {
      CronWrite(k, cfg, s, a.o);
    } else {
      CronRest(k, cfg, s, a);
    }
  }

  lemma SettledBeforeAppend(trace: seq<Event>, e: Event, k: nat)
    requires k <= |trace|
    ensures SettledBefore(trace, k) ==> SettledBefore(trace + [e], k)
  {
    if SettledBefore(trace, k) {
      var j: nat :| j < k && Covers(trace, j, k);
      assert Covers(trace + [e], j, k);
    }
  }

  lemma OrderlyAppend(cfg: Config, trace: seq<Event>, e: Event)
    requires Orderly(cfg, trace) && Released !in trace
    requires e.TornDown? ==> cfg.managed && SettledBefore(trace, |trace|)
    requires e.Released? ==> MayRelease(cfg, trace, |trace|)
    ensures Orderly(cfg, trace + [e])
  {
    var t := trace + [e];
    forall k | 0 <= k < |t| && t[k].TornDown?
      ensures cfg.managed && SettledBefore(t, k)
    {
      SettledBeforeAppend(trace, e, k);
    }
    forall k | 0 <= k < |t| && t[k].Released?
      ensures k == |t| - 1 && MayRelease(cfg, t, k)
    {
      SettledBeforeAppend(trace, e, k);
    }
  }

  lemma AllSettled(trace: seq<Event>, names: seq<Name>)
    requires |trace| > |names| && trace[|trace| - 1 - |names|] == Listed(names)
    requires forall m | |trace| - |names| <= m < |trace| ::
               trace[m].Settled? && trace[m].name == names[m - (|trace| - |names|)]
    ensures SettledBefore(trace, |trace|)
  {
    assert Covers(trace, |trace| - 1 - |names|, |trace|);
  }

  lemma TraceLoud<S>(k: Clockwork<S>, cfg: Config, s: State<S>, a: Action)
    requires TraceFits(cfg, s) && FinalizerFits(s) && CanHappen(cfg, s, a) && EventOf(cfg, s, a).Some?
    ensures TraceFits(cfg, Next(k, cfg, s, a))
  {
    hide Agrees, MayFork, MayFanOut, MayList, ModulesAfter, IndexAfter, ForkAfter, CronAnswer, SettledBefore,
      Orderly, StatusOf;
    OrderlyAppend(cfg, s.trace, EventOf(cfg, s, a).value);
    if (a.Delete? || a.Settle?) && s.pc.done + 1 == |s.pc.names| {
      AllSettled(Next(k, cfg, s, a).trace, s.pc.names);
    }
  }

  lemma TraceCron<S>(k: Clockwork<S>, cfg: Config, s: State<S>)
    requires TraceFits(cfg, s) && FinalizerFits(s)
    ensures TraceFits(cfg, Next(k, cfg, s, Cron))
  {
    hide Agrees, ModulesAfter, IndexAfter, ForkAfter, CronAnswer, SettledBefore, Orderly;
    if s.pc.ClearingWakes? && s.pc.names == [] {
      AllSettled(s.trace, s.pc.names);
    }
  }

  /** Writes that are no milestone, and the other steps that are none. */
  lemma TraceQuietWrite<S>(k: Clockwork<S>, cfg: Config, s: State<S>, o: Outcome)
    requires TraceFits(cfg, s) && FinalizerFits(s) && EventOf(cfg, s, Write(o)).None?
    ensures TraceFits(cfg, Next(k, cfg, s, Write(o)))
  {
    hide Agrees, ModulesAfter, IndexAfter, ForkAfter, CronAnswer, SettledBefore, Orderly, MayRelease, StatusOf;
  }

  lemma TraceQuiet<S>(k: Clockwork<S>, cfg: Config, s: State<S>, a: Action)
    requires TraceFits(cfg, s) && FinalizerFits(s) && CanHappen(cfg, s, a) && EventOf(cfg, s, a).None?
    requires !a.Cron? && !a.Write?
    ensures TraceFits(cfg, Next(k, cfg, s, a))
  {
    hide Agrees, MayFork, MayFanOut, MayList, ModulesAfter, IndexAfter, ForkAfter, CronAnswer, WriteAt,
      SettledBefore, Orderly, MayRelease;
  }

  lemma TraceStep<S>(k: Clockwork<S>, cfg: Config, s: State<S>, a: Action)
    requires TraceFits(cfg, s) && FinalizerFits(s)
    ensures TraceFits(cfg, Next(k, cfg, s, a))
  {
    hide TraceFits, FinalizerFits, EventOf, PcAfter, WsAfter, ModulesAfter, IndexAfter, ForkAfter;
    if !CanHappen(cfg, s, a) {
      assert Next(k, cfg, s, a) == s;
    } else if EventOf(cfg, s, a).Some? {
      TraceLoud(k, cfg, s, a);
    } else if a.Cron? {
      TraceCron(k, cfg, s);
    } else if a.Write? {
      TraceQuietWrite(k, cfg, s, a.o);
    } else {
      TraceQuiet(k, cfg, s, a);
    }
  }

  lemma StepKeepsInv<S>(k: Clockwork<S>, cfg: Config, s: State<S>, a: Action)
    requires Inv(cfg, s)
    ensures Inv(cfg, Next(k, cfg, s, a))
  {
    hide Next, StatusFits, ForkFits, FinalizerFits, CronFits, TraceFits;
    StatusStep(k, cfg, s, a);
    ForkFitsStep(k, cfg, s, a);
    FinalizerStep(k, cfg, s, a);
    CronFitsStep(k, cfg, s, a);
    TraceStep(k, cfg, s, a);
  }

  lemma {:induction false} RunKeepsInv<S>(k: Clockwork<S>, cfg: Config, s: State<S>, run: seq<Action>)
    requires Inv(cfg, s)
    ensures Inv(cfg, Exec(k, cfg, s, run))
  {
    hide Inv, Next;
    if run != [] {
      RunKeepsInv(k, cfg, s, run[..|run| - 1]);
      StepKeepsInv(k, cfg, Exec(k, cfg, s, run[..|run| - 1]), run[|run| - 1]);
    }
  }

  lemma ReachableInv<S>(k: Clockwork<S>, cfg: Config, s0: State<S>, run: seq<Action>)
    requires Fresh(cfg, s0)
    ensures Inv(cfg, Exec(k, cfg, s0, run))
  {
    RunKeepsInv(k, cfg, s0, run);
  }

  // ---------------------------------------------------------------- status

  /** In every run: hibernatedAt is set exactly in phase hibernated, and ready is true exactly in
      phases ready and hibernated.  The terminating phase is never reached. */
  lemma StatusAlwaysFits<S>(k: Clockwork<S>, cfg: Config, s0: State<S>, run: seq<Action>)
    requires Fresh(cfg, s0)
    ensures StatusFits(Exec(k, cfg, s0, run).ws.status)
  {
    ReachableInv(k, cfg, s0, run);
  }

  /** What a module reconcile sees of the workspace. */
  function ViewOf(ws: Workspace): Option<MP.WorkspaceView> {
    if ws.stored then Some(MP.WorkspaceView(ws.status.ready, ws.status.phase, ws.deleting)) else None
  }

  /** So the gate before uninstalling a module never passes for a failed workspace that is not
      itself being deleted, and the ready flag adds nothing to the phase at any of the three gates. */
  lemma GatesOnlyReadPhases<S>(k: Clockwork<S>, cfg: Config, s0: State<S>, run: seq<Action>)
    requires Fresh(cfg, s0)
    ensures var ws := Exec(k, cfg, s0, run).ws;
            && (MP.UninstallReady(ViewOf(ws), true) <==>
                ws.stored && (ws.deleting || ws.status.phase.WsReady? || ws.status.phase.WsHibernated?))
            && (MP.HibernationReady(ViewOf(ws), true) <==>
                ws.stored && (ws.status.phase.WsReady? || ws.status.phase.WsHibernated?))
            && (MP.InstallReady(ViewOf(ws), true) == Some(true) <==> ws.stored && ws.status.phase.WsReady?)
  {
    StatusAlwaysFits(k, cfg, s0, run);
  }

  // ---------------------------------------------------------------- fork

  /** The workspace has been given a phase, and the reconcile that did so is past the fork. */
  ghost predicate PastFork<S>(s: State<S>) {
    !s.ws.status.phase.NoPhase? && !BeforeFork(s.pc)
  }

  lemma PastForkStep<S>(k: Clockwork<S>, cfg: Config, s: State<S>, a: Action)
    requires PastFork(s)
    ensures PastFork(Next(k, cfg, s, a)) && Next(k, cfg, s, a).forks == s.forks
  {
    hide Agrees, MayFork, MayFanOut, MayList, ModulesAfter, IndexAfter, ForkAfter, EventOf, CronAnswer;
  }

  /** From then on no run ever tries to fork it. */
  lemma {:induction false} NoSecondChance<S>(k: Clockwork<S>, cfg: Config, s: State<S>, run: seq<Action>)
    requires PastFork(s)
    ensures PastFork(Exec(k, cfg, s, run)) && Exec(k, cfg, s, run).forks == s.forks
  {
    hide Next, PastFork;
    if run != [] {
      NoSecondChance(k, cfg, s, run[..|run| - 1]);
      PastForkStep(k, cfg, Exec(k, cfg, s, run[..|run| - 1]), run[|run| - 1]);
    }
  }

  /** In every run a workspace is forked at most once. */
  lemma ForkAtMostOnce<S>(k: Clockwork<S>, cfg: Config, s0: State<S>, run: seq<Action>)
    requires Fresh(cfg, s0)
    ensures |Exec(k, cfg, s0, run).forks| <= 1
  {
    ReachableInv(k, cfg, s0, run);
  }

  /** A workspace whose first status write lands but is not acknowledged, or that starts out
      hibernated, is never forked at all. */
  lemma LostChance<S>(k: Clockwork<S>, cfg: Config, s: State<S>, o: Outcome, run: seq<Action>)
    requires Inv(cfg, s) && s.ws.status.phase.NoPhase? && s.pc.Setting? && s.forks == []
    requires o.Lost? || (o.Ok? && s.pc.target.ToHibernated? && s.pc.next.ThenSchedule?)
    ensures Exec(k, cfg, Next(k, cfg, s, Write(o)), run).forks == []
  {
    NoSecondChance(k, cfg, Next(k, cfg, s, Write(o)), run);
  }

  // ---------------------------------------------------------------- deletion

  /** In every run: a teardown comes directly after a verdict on each module of one listing, in
      order; the finalizer goes after that and nothing follows it. */
  lemma DeletionOrder<S>(k: Clockwork<S>, cfg: Config, s0: State<S>, run: seq<Action>)
    requires Fresh(cfg, s0)
    ensures Orderly(cfg, Exec(k, cfg, s0, run).trace)
  {
    ReachableInv(k, cfg, s0, run);
  }

  /** Each verdict was true when it was reached: the module was missing, or sixty seconds had passed
      since the request; otherwise the request itself had failed. */
  lemma VerdictsTrue<S>(k: Clockwork<S>, cfg: Config, s: State<S>, a: Action, name: Name, v: Verdict, waited: int)
    requires Next(k, cfg, s, a).trace == s.trace + [Settled(name, v, waited)]
    ensures v.Gone? ==> name !in s.modules
    ensures v.Expired? ==> s.pc.Awaiting? && waited == s.now - s.pc.since >= 60
    ensures v.Refused? ==> a == Delete(false)
  {
    hide Agrees, MayFork, MayFanOut, MayList, ModulesAfter, IndexAfter, ForkAfter, PcAfter, WsAfter;
    var e := EventOf(cfg, s, a);
    assert e.Some? ==> (s.trace + [e.value])[|s.trace|] == e.value;
    assert (s.trace + [Settled(name, v, waited)])[|s.trace|] == Settled(name, v, waited);
  }

  /** A listing names exactly the modules that refer to the workspace. */
  lemma ListedIs<S>(cfg: Config, s: State<S>, ok: bool, names: seq<Name>)
    requires CanHappen(cfg, s, List(ok, names))
    ensures forall n :: n in names <==> n in s.modules && s.modules[n].spec.workspace == cfg.ref
  {
    hide Agrees;
    assert forall n :: n in names <==> n in Elems(names);
  }

  /** A workspace that is gone has no cron entry, in any state of any run. */
  lemma GoneHasNoCron<S>(k: Clockwork<S>, cfg: Config, s0: State<S>, run: seq<Action>)
    requires Fresh(cfg, s0) && !Exec(k, cfg, s0, run).ws.stored
    ensures cfg.uid !in Exec(k, cfg, s0, run).sleeps.ids && cfg.uid !in Exec(k, cfg, s0, run).wakes.ids
  {
    ReachableInv(k, cfg, s0, run);
  }

  lemma {:induction false} GoneForever<S>(k: Clockwork<S>, cfg: Config, s: State<S>, run: seq<Action>)
    requires !s.ws.stored
    ensures !Exec(k, cfg, s, run).ws.stored
  {
    if run != [] {
      GoneForever(k, cfg, s, run[..|run| - 1]);
      GoneStep(k, cfg, Exec(k, cfg, s, run[..|run| - 1]), run[|run| - 1]);
    }
  }

  lemma GoneStep<S>(k: Clockwork<S>, cfg: Config, s: State<S>, a: Action)
    requires !s.ws.stored
    ensures !Next(k, cfg, s, a).ws.stored
  {
    hide Agrees, MayFork, MayFanOut, MayList, ModulesAfter, IndexAfter, ForkAfter, EventOf, CronAnswer;
  }

  /** After a completed deletion no cron entry for that workspace ever exists again. */
  lemma NoCronAfterDeletion<S>(k: Clockwork<S>, cfg: Config, s: State<S>, run: seq<Action>)
    requires Inv(cfg, s) && !s.ws.stored
    ensures cfg.uid !in Exec(k, cfg, s, run).sleeps.ids && cfg.uid !in Exec(k, cfg, s, run).wakes.ids
  {
    RunKeepsInv(k, cfg, s, run);
    GoneForever(k, cfg, s, run);
  }
}
