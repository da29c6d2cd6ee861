/** What can still become of a module: which deletions complete, what follows a refused
    installation, and which sleeping modules stay asleep or can never wake. */
module ModuleFate {
  import opened Common
  import opened HelmScaling
  import opened ModuleProtocol
  import opened ModuleRuns

  // ---------------------------------------------------------------- deletion

  /** One reconcile of a deleting module in which every write is acknowledged.  The gate and the
      uninstallation may end in any way. */
  ghost function DeletionPass(cfg: Config, s: State, wsReadable: bool, built: bool, o: Outcome,
                              ok: bool, cluster: Cluster): State
  {
    var announced := Next(cfg, Next(cfg, s, Start(true)), Write(Ok));
    var gated := Next(cfg, announced, Gate(wsReadable, built, o));
    var called := if gated.pc.Calling? then Next(cfg, gated, Manager(ok, gated.mem, cluster)) else gated;
    Next(cfg, called, Write(Ok))
  }

  /** A deleting module that is ready, failed or asleep is gone after one such reconcile, whether
      or not the uninstallation succeeds. */
  lemma DeletionCompletes(cfg: Config, s: State, wsReadable: bool, built: bool, o: Outcome, ok: bool, cluster: Cluster)
    requires Inv(cfg, s) && s.pc.Idle? && s.obj.stored && s.obj.deleting && Deletable(s.obj.phase)
    ensures !DeletionPass(cfg, s, wsReadable, built, o, ok, cluster).obj.stored
  {
    hide Run, OriginOf, Own;
    var announced := Next(cfg, Next(cfg, s, Start(true)), Write(Ok));
    assert announced.pc == Gating(Uninstall) && announced.obj.stored && announced.obj.finalizer;
    var gated := Next(cfg, announced, Gate(wsReadable, built, o));
    assert gated.obj.stored && gated.obj.finalizer;
    assert gated.pc == Calling(Uninstall) || (gated.pc.Settling? && gated.pc.op.Uninstall?);
  }

  /** The manager's Uninstall is called in it exactly if the release was not adopted, the manager could be
      built, and the workspace could be read and is itself being deleted or is ready in one of three
      phases; otherwise nothing is called and the cluster is left alone. */
  lemma UninstallsIff(cfg: Config, s: State, wsReadable: bool, built: bool, o: Outcome, ok: bool, cluster: Cluster)
    requires Inv(cfg, s) && s.pc.Idle? && s.obj.stored && s.obj.deleting
    requires s.obj.phase.Ready? || s.obj.phase.Failed? || s.obj.phase.Sleeped?
    ensures var t := DeletionPass(cfg, s, wsReadable, built, o, ok, cluster);
            if !cfg.adopted && built && wsReadable && s.workspace.Some?
               && (s.workspace.value.deleting
                   || (s.workspace.value.ready
                       && (|| s.workspace.value.phase.WsReady? || s.workspace.value.phase.WsHibernated?
                           || s.workspace.value.phase.WsFailed?)))
            then t.trace == s.trace + [Uninstall] && t.cluster == cluster
            else t.trace == s.trace && t.cluster == s.cluster
  {
    hide Run, OriginOf, Own, SleepRel, ResumeRel, AutoFits, OriginFits, HistoryFits;
    var announced := Next(cfg, Next(cfg, s, Start(true)), Write(Ok));
    assert announced.pc == Gating(Uninstall) && announced.workspace == s.workspace;
    assert announced.trace == s.trace && announced.cluster == s.cluster;
    var gated := Next(cfg, announced, Gate(wsReadable, built, o));
    assert gated.trace == s.trace && gated.cluster == s.cluster;
    assert gated.pc.Calling? ==> CanReturn(cfg, gated, ok, gated.mem, cluster);
  }

  /** Nothing but the user's hibernation flag ever changes on a deleting module that no reconcile is
      working on and whose phase is empty, installing, sleeping, resuming or uninstalling. */
  lemma {:induction false} DeletionStuck(cfg: Config, s: State, run: seq<Action>)
    requires s.obj.stored && s.obj.finalizer && s.obj.deleting && !Deletable(s.obj.phase) && s.pc.Idle?
    ensures var s' := Exec(cfg, s, run);
            && s'.obj == s.obj.(hibernated := s'.obj.hibernated) && s'.pc.Idle? && s'.trace == s.trace
  {
    hide Next;
    if run != [] {
      DeletionStuck(cfg, s, run[..|run| - 1]);
      StuckStep(cfg, Exec(cfg, s, run[..|run| - 1]), run[|run| - 1]);
    }
  }

  lemma StuckStep(cfg: Config, s: State, a: Action)
    requires s.obj.stored && s.obj.finalizer && s.obj.deleting && !Deletable(s.obj.phase) && s.pc.Idle?
    ensures var s' := Next(cfg, s, a);
            && s'.obj == s.obj.(hibernated := s'.obj.hibernated) && s'.pc.Idle? && s'.trace == s.trace
  {
    hide SleepRel, ResumeRel, Own;
  }

  /** Deletion of an idle module can complete exactly when its phase is ready, failed or asleep. */
  lemma DeletionIff(cfg: Config, s: State)
    requires Inv(cfg, s) && s.pc.Idle? && s.obj.stored && s.obj.deleting
    ensures (exists run :: !Exec(cfg, s, run).obj.stored) <==>
            s.obj.phase.Ready? || s.obj.phase.Failed? || s.obj.phase.Sleeped?
  {
    hide Inv, Run, OriginOf, Own;
    if Deletable(s.obj.phase) {
      // The workspace is unreadable, so the finalizer is dropped without an uninstallation.
      var run := [Start(true), Write(Ok), Gate(false, true, Ok), Write(Ok)];
      DeletionCompletes(cfg, s, false, true, Ok, true, s.cluster);
      FourSteps(cfg, s, run);
      assert !Exec(cfg, s, run).obj.stored;
    } else {
      FinalizerKept(cfg, s);
      forall run
        ensures Exec(cfg, s, run).obj.stored
      {
        DeletionStuck(cfg, s, run);
      }
    }
  }

  lemma FinalizerKept(cfg: Config, s: State)
    requires Inv(cfg, s) && s.obj.stored && s.obj.deleting
    ensures s.obj.finalizer
  {
    hide Run, OriginOf, Own, AutoFits, OriginFits, HistoryFits;
  }

  lemma FourSteps(cfg: Config, s: State, r: seq<Action>)
    requires |r| == 4
    ensures Exec(cfg, s, r) == Next(cfg, Next(cfg, Next(cfg, Next(cfg, s, r[0]), r[1]), r[2]), r[3])
  {
    hide Next;
    assert r[..3][..2] == r[..2] && r[..2][..1] == r[..1] && r[..1][..0] == [];
    assert Exec(cfg, s, r[..0]) == s;
    assert Exec(cfg, s, r[..2]) == Next(cfg, Next(cfg, s, r[0]), r[1]);
  }

  /** A module is only ever uninstalling while it is being deleted, so the transition timeout never
      turns an uninstalling module into a failed one. */
  lemma UninstallingNeverExpires(cfg: Config, s0: State, run: seq<Action>, a: Action)
    requires Fresh(s0) && Exec(cfg, s0, run).obj.phase.Uninstalling?
    ensures Exec(cfg, s0, run).obj.deleting
    ensures Next(cfg, Exec(cfg, s0, run), a).obj.phase.Uninstalling?
  {
    hide Run, OriginOf, Own;
    ReachableInv(cfg, s0, run);
  }

  // ---------------------------------------------------------------- a refused installation

  /** The installation was given up without calling the manager. */
  predicate Stalled(s: State) {
    && (s.obj.phase.Installing? || s.obj.phase.Failed? || s.obj.phase.Uninstalling?)
    && Install !in s.trace
    && (|| s.pc.Idle? || s.pc.Expiring?
        || (s.pc.Announcing? && s.pc.op.Uninstall?) || (Inside(s.pc) && s.pc.op.Uninstall?))
  }

  lemma StalledStep(cfg: Config, s: State, a: Action)
    requires Stalled(s) && s.obj.finalizer
    ensures Stalled(Next(cfg, s, a))
    ensures Next(cfg, s, a).obj.finalizer || !Next(cfg, s, a).obj.stored
  {
    hide SleepRel, ResumeRel, Own;
  }

  lemma GoneStays(cfg: Config, s: State, a: Action)
    requires !s.obj.stored && s.pc.Idle?
    ensures Next(cfg, s, a).trace == s.trace && Next(cfg, s, a).pc.Idle? && !Next(cfg, s, a).obj.stored
    ensures Next(cfg, s, a).obj.phase == s.obj.phase
  {
  }

  /** The workspace was read and is not ready, or not in phase ready. */
  predicate Refuses(ws: Option<WorkspaceView>, wsReadable: bool) {
    wsReadable && ws.Some? && (!ws.value.ready || !ws.value.phase.WsReady?)
  }

  /** When the workspace is not ready the reconcile ends with the module installing and nothing
      installed; from then on no run ever installs it. */
  lemma NotReadyNeverInstalls(cfg: Config, s: State, wsReadable: bool, built: bool, o: Outcome, run: seq<Action>)
    requires Inv(cfg, s) && s.pc == Gating(Install) && Refuses(s.workspace, wsReadable)
    ensures Install !in Exec(cfg, Next(cfg, s, Gate(wsReadable, built, o)), run).trace
  {
    var s1 := Next(cfg, s, Gate(wsReadable, built, o));
    assert s1.pc.Idle? && s1.obj == s.obj && s1.trace == s.trace;
    RefusedTrace(cfg, s);
    StalledForever(cfg, s1, run);
  }

  lemma RefusedTrace(cfg: Config, s: State)
    requires Inv(cfg, s) && s.pc == Gating(Install)
    ensures s.trace == [] && s.obj.phase.Installing? && s.obj.finalizer && s.obj.lastActivity.Some?
  {
    NeverBegunAgain(s.trace);
  }

  lemma {:induction false} StalledForever(cfg: Config, s: State, run: seq<Action>)
    requires Stalled(s) && s.obj.finalizer
    ensures var s' := Exec(cfg, s, run);
            Stalled(s') && (s'.obj.finalizer || (!s'.obj.stored && s'.pc.Idle?))
  {
    if run != [] {
      var u, a := run[..|run| - 1], run[|run| - 1];
      StalledForever(cfg, s, u);
      var s' := Exec(cfg, s, u);
      if s'.obj.finalizer {
        StalledStep(cfg, s', a);
        FinalizerGone(cfg, s', a);
      } else {
        GoneStays(cfg, s', a);
      }
    }
  }

  lemma FinalizerGone(cfg: Config, s: State, a: Action)
    requires s.obj.finalizer
    ensures Next(cfg, s, a).obj.finalizer || Next(cfg, s, a).pc.Idle?
  {
  }

  /** Waiting since `since`, or given up after more than the timeout. */
  predicate Waiting(since: int, s: State) {
    && s.obj.stored && s.obj.finalizer && !s.obj.deleting && s.trace == []
    && (|| (s.obj.phase.Installing? && s.obj.lastActivity == Some(since)
            && (s.pc.Idle? || (s.pc.Expiring? && s.now - since > 300)))
        || (s.obj.phase.Failed? && s.pc.Idle? && s.now - since > 300))
  }

  /** Unless its deletion is requested, a module whose installation was refused does nothing but
      wait, and can only become failed, once more than five minutes have passed. */
  lemma NotReadyOnlyWaits(cfg: Config, s: State, wsReadable: bool, built: bool, o: Outcome, run: seq<Action>)
    requires Inv(cfg, s) && s.pc == Gating(Install) && Refuses(s.workspace, wsReadable)
    requires !s.obj.deleting && RequestDelete !in run
    ensures Waiting(s.obj.lastActivity.value, Exec(cfg, Next(cfg, s, Gate(wsReadable, built, o)), run))
  {
    RefusedTrace(cfg, s);
    NeverMissing(cfg, s);
    WaitingForever(cfg, s.obj.lastActivity.value, Next(cfg, s, Gate(wsReadable, built, o)), run);
  }

  lemma NeverMissing(cfg: Config, s: State)
    requires Inv(cfg, s) && s.pc.Gating?
    ensures s.obj.stored
  {
    hide Run, OriginOf, Own;
  }

  lemma {:induction false} WaitingForever(cfg: Config, since: int, s: State, run: seq<Action>)
    requires Waiting(since, s) && RequestDelete !in run
    ensures Waiting(since, Exec(cfg, s, run))
  {
    hide Next, Waiting;
    if run != [] {
      var u, a := run[..|run| - 1], run[|run| - 1];
      assert RequestDelete !in u && a in run;
      WaitingForever(cfg, since, s, u);
      WaitingStep(cfg, since, Exec(cfg, s, u), a);
    }
  }

  lemma WaitingStep(cfg: Config, since: int, s: State, a: Action)
    requires Waiting(since, s) && !a.RequestDelete?
    ensures Waiting(since, Next(cfg, s, a))
  {
    hide SleepRel, ResumeRel, Own;
  }

  /** And it does become failed: the first reconcile after the timeout whose write lands. */
  lemma WaitingFails(cfg: Config, since: int, s: State)
    requires Waiting(since, s) && s.pc.Idle? && s.now - since > 300
    ensures Next(cfg, Next(cfg, s, Start(true)), Write(Ok)).obj.phase.Failed?
  {
  }

  // ---------------------------------------------------------------- sleeping modules

  /** A Helm module asleep without a stored history, and what can become of it. */
  predicate Forgotten(s: State) {
    && s.obj.history.None?
    && (|| s.obj.phase.Sleeped? || s.obj.phase.Resuming? || s.obj.phase.Failed? || s.obj.phase.Uninstalling?)
    && (|| s.pc.Idle? || s.pc.Expiring?
        || (s.pc.Announcing? && (s.pc.op.Uninstall? || s.pc.op.Resume?))
        || (Inside(s.pc) && s.pc.op.Uninstall?)
        || ((s.pc.Gating? || s.pc.Calling?) && s.pc.op.Resume? && s.mem.None?)
        || s.pc == Recording(Resume, false))
    && (Inside(s.pc) ==> s.mem.None?)
  }

  lemma ForgottenStep(cfg: Config, s: State, a: Action)
    requires Forgotten(s) && cfg.helm
    ensures Forgotten(Next(cfg, s, a))
  {
    hide SleepRel, Own;
  }

  /** A Helm module put to sleep while it had no workload, and had none before, is never ready
      again: every attempt to resume it fails. */
  lemma {:induction false} ForgottenNeverWakes(cfg: Config, s: State, run: seq<Action>)
    requires cfg.helm && Forgotten(s)
    ensures Forgotten(Exec(cfg, s, run)) && !Exec(cfg, s, run).obj.phase.Ready?
  {
    if run != [] {
      ForgottenNeverWakes(cfg, s, run[..|run| - 1]);
      ForgottenStep(cfg, Exec(cfg, s, run[..|run| - 1]), run[|run| - 1]);
    }
  }

  /** How a module gets there: Sleep finds nothing to scale and nothing was stored. */
  lemma EmptyReleaseForgotten(cfg: Config, s: State, mem: Option<ReplicaHistory>, cluster: Cluster)
    requires cfg.helm && Inv(cfg, s) && s.pc == Calling(Sleep) && s.obj.hibernated && s.obj.history.None?
    requires Own(cfg.release, s.cluster) == map[] && CanReturn(cfg, s, true, mem, cluster)
    ensures var s' := Next(cfg, Next(cfg, Next(cfg, s, Manager(true, mem, cluster)), Write(Ok)), Write(Ok));
            s'.obj.phase.Sleeped? && s'.pc.Idle? && Forgotten(s')
  {
    hide Run, OriginOf, AutoFits, OriginFits;
    var s1 := Next(cfg, s, Manager(true, mem, cluster));
    assert s1.mem.None? && s1.obj.stored && s1.pc == Recording(Sleep, true);
    var s2 := Next(cfg, s1, Write(Ok));
    assert s2.obj.history.None? && s2.pc == Settling(Sleep, true);
  }

  /** A run without outside edits of the object: reconciles, crashes, time, workspace changes and
      other people's workloads only. */
  predicate Undisturbed(run: seq<Action>) {
    forall i | 0 <= i < |run| :: !run[i].SetHibernated? && !run[i].RequestDelete?
  }

  /** Meant to sleep, not being deleted, and no reconcile has already decided to wake it. */
  predicate KeptAsleep(s: State) {
    s.obj.stored && s.obj.finalizer && s.obj.hibernated && !s.obj.deleting && s.pc != Announcing(Resume)
  }

  lemma KeptAsleepStep(cfg: Config, s: State, a: Action)
    requires Inv(cfg, s) && KeptAsleep(s) && !a.SetHibernated? && !a.RequestDelete?
    ensures KeptAsleep(Next(cfg, s, a))
    ensures s.obj.phase.Sleeped? ==> s.pc.Idle? && Next(cfg, s, a).obj == s.obj
  {
    hide Run, OriginOf, Own, AutoFits, OriginFits, HistoryFits;
  }

  /** Once such a module is asleep it stays asleep, with no reconcile working on it, for as long as
      nobody edits it. */
  lemma {:induction false} AsleepStaysAsleep(cfg: Config, s: State, run: seq<Action>)
    requires Inv(cfg, s) && KeptAsleep(s) && Undisturbed(run)
    ensures Inv(cfg, Exec(cfg, s, run)) && KeptAsleep(Exec(cfg, s, run))
    ensures s.obj.phase.Sleeped? ==> Exec(cfg, s, run).obj == s.obj
    ensures Exec(cfg, s, run).obj.phase.Sleeped? ==> Exec(cfg, s, run).pc.Idle?
  {
    hide Inv, Next, KeptAsleep;
    if run != [] {
      var u, a := run[..|run| - 1], run[|run| - 1];
      AsleepStaysAsleep(cfg, s, u);
      StepKeepsInv(cfg, Exec(cfg, s, u), a);
      KeptAsleepStep(cfg, Exec(cfg, s, u), a);
    }
    var s' := Exec(cfg, s, run);
    KeptAsleepStep(cfg, s', Tick(0));
  }

  /** Seeing a module asleep and flagged hibernated is not enough: it stays asleep in every
      undisturbed run exactly when no reconcile is in flight.  (A reconcile that read the flag before
      it was set will still announce the wake-up it decided on.) */
  lemma StaysAsleepIff(cfg: Config, s: State)
    requires Inv(cfg, s) && s.obj.stored && s.obj.phase.Sleeped? && s.obj.hibernated && !s.obj.deleting
    ensures (forall run | Undisturbed(run) :: Exec(cfg, s, run).obj.phase.Sleeped?) <==> s.pc.Idle?
  {
    SleepedPcs(cfg, s);
    if s.pc.Idle? {
      forall run | Undisturbed(run)
        ensures Exec(cfg, s, run).obj.phase.Sleeped?
      {
        AsleepStaysAsleep(cfg, s, run);
      }
    } else {
      var run := [Write(Ok)];
      assert run[..0] == [];
      assert Undisturbed(run) && Exec(cfg, s, run).obj.phase.Resuming?;
    }
  }

  lemma SleepedPcs(cfg: Config, s: State)
    requires Inv(cfg, s) && s.obj.stored && s.obj.phase.Sleeped? && !s.obj.deleting
    ensures s.obj.finalizer && (s.pc.Idle? || s.pc == Announcing(Resume))
  {
    hide Run, OriginOf, Own, AutoFits, OriginFits, HistoryFits;
  }
}
