/** Forks over whole runs: what the goroutines of a fork create, that no source module is copied twice
    or forgotten, and that a refused fork creates nothing, ever. */
module WorkspaceForks {
  import opened Common
  import opened ModuleStore
  import opened Forking
  import opened CronIndex
  import opened WorkspaceProtocol
  import opened WorkspaceRuns

  /** Goroutines exist only after a fork that went through, and account for all its modules. */
  ghost predicate ProgressFits<S>(cfg: Config, s: State<S>) {
    && (s.forks != [true] ==> s.fork == NOTHING)
    && (cfg.from.Some? ==> Fit(s.fork, cfg.from.value, cfg.ref))
    && (cfg.from.None? ==> s.forks == [])
  }

  lemma ProgressStep<S>(k: Clockwork<S>, cfg: Config, s: State<S>, a: Action)
    requires ProgressFits(cfg, s) && ForkFits(s)
    ensures ProgressFits(cfg, Next(k, cfg, s, a))
  {
    hide Agrees, MayFanOut, MayList, ModulesAfter, IndexAfter, PcAfter, WsAfter, EventOf, Fit, Abandoned,
      Spawned, Planned;
    if CanHappen(cfg, s, a) {
      if a.Fork? && a.ok {
        PlannedFits(s.modules, cfg.from.value, cfg.ref, a.drafts);
      } else if a.Spawn? && cfg.from.Some? {
        SpawnedFits(s.fork, cfg.from.value, cfg.ref, a.i, a.o.Landed(), a.name);
      } else if a.Crash? && cfg.from.Some? {
        AbandonedFits(s.fork, cfg.from.value, cfg.ref);
      }
      if a.Crash? {
        NothingAbandoned();
      }
    }
  }

  lemma NothingAbandoned()
    ensures Abandoned(NOTHING) == NOTHING
  {
    assert Sources([]) == {};
  }

  lemma {:induction false} ReachableProgress<S>(k: Clockwork<S>, cfg: Config, s0: State<S>, run: seq<Action>)
    requires Fresh(cfg, s0)
    ensures ProgressFits(cfg, Exec(k, cfg, s0, run)) && Inv(cfg, Exec(k, cfg, s0, run))
  {
    hide Next, Inv, ProgressFits;
    ReachableInv(k, cfg, s0, run);
    if run == [] {
      StartFits(cfg, s0);
    } else {
      var u := run[..|run| - 1];
      ReachableProgress(k, cfg, s0, u);
      ForkFitsOf(cfg, Exec(k, cfg, s0, u));
      ProgressStep(k, cfg, Exec(k, cfg, s0, u), run[|run| - 1]);
    }
  }

  lemma StartFits<S>(cfg: Config, s: State<S>)
    requires Fresh(cfg, s)
    ensures ProgressFits(cfg, s)
  {
    if cfg.from.Some? {
      NothingFits(cfg.from.value, cfg.ref);
    }
  }

  lemma ForkFitsOf<S>(cfg: Config, s: State<S>)
    requires Inv(cfg, s)
    ensures ForkFits(s)
  {
  }

  // ---------------------------------------------------------------- results

  /** In every run, at every moment, each module of the forked workspace is exactly one of: drafted,
      copied once, or dropped; and all of them were ready or asleep when the fork listed them. */
  lemma ForkConserves<S>(k: Clockwork<S>, cfg: Config, s0: State<S>, run: seq<Action>)
    requires Fresh(cfg, s0) && cfg.from.Some?
    ensures var s := Exec(k, cfg, s0, run);
            && Conserved(s.fork, cfg.from.value)
            && (forall n | n in s.fork.listed && s.fork.listed[n].spec.workspace == cfg.from.value ::
                  && (s.fork.listed[n].phase.Ready? || s.fork.listed[n].phase.Sleeped?)
                  && (n in Sources(s.fork.drafts) || n in Parents(s.fork.born) || n in s.fork.dropped))
  {
    hide Next;
    ReachableProgress(k, cfg, s0, run);
    var f := Exec(k, cfg, s0, run).fork;
    forall n | n in f.listed && f.listed[n].spec.workspace == cfg.from.value
      ensures n in RelatedNames(f.listed, cfg.from.value)
    {
      RelatedIs(f.listed, cfg.from.value, n);
    }
  }

  /** In every run, a step other than an outside change that brings a new module is a goroutine's create,
      and the new module is a copy for this workspace of a source module that was ready or asleep, with
      the same configuration, flag and release name and no existing release.  Creates change no other
      module. */
  lemma ForkCreates<S>(k: Clockwork<S>, cfg: Config, s0: State<S>, run: seq<Action>, a: Action, n: Name)
    requires Fresh(cfg, s0) && !a.ModulesChange?
    requires var s := Exec(k, cfg, s0, run); n in Next(k, cfg, s, a).modules && n !in s.modules
    ensures var s := Exec(k, cfg, s0, run); var s' := Next(k, cfg, s, a);
            && a.Spawn? && a.i < |s.fork.drafts| && cfg.from.Some? && s.fork.drafts[a.i].source in s.fork.listed
            && s'.modules == s.modules[n := s'.modules[n]]
            && var original, copy := s.fork.listed[s.fork.drafts[a.i].source], s'.modules[n];
            && original.spec.workspace == cfg.from.value && (original.phase.Ready? || original.phase.Sleeped?)
            && copy.spec.workspace == cfg.ref && copy.spec.config == original.spec.config
            && copy.declared == original.declared && copy.spec.hibernated == original.spec.hibernated
            && copy.phase.Empty? && (copy.spec.helm.Some? <==> original.spec.helm.Some?)
            && (copy.spec.helm.Some? ==> copy.spec.helm.value == original.spec.helm.value.(existing := None))
  {
    hide Exec, Inv, Fit;
    ReachableProgress(k, cfg, s0, run);
    var s := Exec(k, cfg, s0, run);
    NewModule(k, cfg, s, a, n);
    hide Next;
    DraftIs(s.fork, cfg.from.value, cfg.ref, a.i);
  }

  lemma NewModule<S>(k: Clockwork<S>, cfg: Config, s: State<S>, a: Action, n: Name)
    requires !a.ModulesChange? && n in Next(k, cfg, s, a).modules && n !in s.modules
    ensures a.Spawn? && a.i < |s.fork.drafts| && Next(k, cfg, s, a).modules == s.modules[n := s.fork.drafts[a.i].copy]
  {
    hide Agrees, MayFork, MayFanOut, MayList, IndexAfter, PcAfter, WsAfter, ForkAfter, EventOf;
  }

  /** A copy is only dropped when its create fails or the operator crashes: with a reliable API server
      and no crash, all modules are copied once no goroutine is left. */
  lemma {:induction false} NothingDropped<S>(k: Clockwork<S>, cfg: Config, s: State<S>, run: seq<Action>)
    requires cfg.reliable && s.fork.dropped == {} && Crash !in run
    ensures Exec(k, cfg, s, run).fork.dropped == {}
  {
    hide Agrees, MayFork, MayFanOut, MayList, IndexAfter, PcAfter, WsAfter, ModulesAfter, EventOf;
    if run != [] {
      var u, a := run[..|run| - 1], run[|run| - 1];
      assert Crash !in u && a in run;
      NothingDropped(k, cfg, s, u);
    }
  }

  lemma ForkCompletes<S>(k: Clockwork<S>, cfg: Config, s0: State<S>, run: seq<Action>)
    requires Fresh(cfg, s0) && cfg.from.Some? && cfg.reliable && Crash !in run
    requires Exec(k, cfg, s0, run).fork.drafts == []
    ensures var f := Exec(k, cfg, s0, run).fork;
            && Parents(f.born) == RelatedNames(f.listed, cfg.from.value)
            && forall n | n in f.listed && f.listed[n].spec.workspace == cfg.from.value ::
                 exists i :: 0 <= i < |f.born| && f.born[i].source == n
  {
    hide Next, Exec, RelatedNames;
    ForkConserves(k, cfg, s0, run);
    NothingDropped(k, cfg, s0, run);
    assert Sources([]) == {};
    var f := Exec(k, cfg, s0, run).fork;
    forall n | n in f.listed && f.listed[n].spec.workspace == cfg.from.value
      ensures exists i :: 0 <= i < |f.born| && f.born[i].source == n
    {
      assert n in Parents(f.born);
    }
  }

  /** With a reliable API server a fork goes through if and only if every module that refers to the source
      workspace is ready or asleep. */
  lemma ReliableForkIff<S>(cfg: Config, s: State<S>, ok: bool, drafts: seq<Draft>)
    requires cfg.reliable && CanHappen(cfg, s, Fork(ok, drafts))
    ensures cfg.from.Some?
    ensures ok <==> forall n | n in s.modules && s.modules[n].spec.workspace == cfg.from.value ::
                      s.modules[n].phase.Ready? || s.modules[n].phase.Sleeped?
  {
    hide ForkPlan, Agrees;
    var from := cfg.from.value;
    assert forall n :: n in RelatedNames(s.modules, from) <==> n in s.modules && s.modules[n].spec.workspace == from;
  }

  /** A fork refused because a source module was not ready is never tried again, and no run ever creates
      a copy: the requeue is dropped and the workspace is already ready. */
  lemma FailedForkNeverRetried<S>(k: Clockwork<S>, cfg: Config, s0: State<S>, run: seq<Action>,
                                  drafts: seq<Draft>, more: seq<Action>)
    requires Fresh(cfg, s0) && CanHappen(cfg, Exec(k, cfg, s0, run), Fork(false, drafts))
    ensures var s := Exec(k, cfg, s0, run); var s' := Next(k, cfg, s, Fork(false, drafts));
            && s'.modules == s.modules && s'.ws.status.phase.WsReady?
            && Exec(k, cfg, s', more).forks == [false] && Exec(k, cfg, s', more).fork == NOTHING
  {
    ReachableProgress(k, cfg, s0, run);
    var s := Exec(k, cfg, s0, run);
    Refused(k, cfg, s, drafts);
    hide Next, Inv;
    var s' := Next(k, cfg, s, Fork(false, drafts));
    NoSecondChance(k, cfg, s', more);
    StaysNothing(k, cfg, s', more);
  }

  lemma Refused<S>(k: Clockwork<S>, cfg: Config, s: State<S>, drafts: seq<Draft>)
    requires ForkFits(s) && ProgressFits(cfg, s) && CanHappen(cfg, s, Fork(false, drafts))
    ensures var s' := Next(k, cfg, s, Fork(false, drafts));
            && s'.modules == s.modules && s'.ws.status.phase.WsReady? && s'.forks == [false]
            && s'.fork == NOTHING && PastFork(s')
  {
    hide Agrees, Fit, ForkPlan, EventOf, IndexAfter;
  }

  lemma {:induction false} StaysNothing<S>(k: Clockwork<S>, cfg: Config, s: State<S>, run: seq<Action>)
    requires PastFork(s) && s.fork == NOTHING
    ensures Exec(k, cfg, s, run).fork == NOTHING
  {
    hide Next, PastFork;
    if run != [] {
      var u := run[..|run| - 1];
      StaysNothing(k, cfg, s, u);
      NoSecondChance(k, cfg, s, u);
      StillNothing(k, cfg, Exec(k, cfg, s, u), run[|run| - 1]);
    }
  }

  lemma StillNothing<S>(k: Clockwork<S>, cfg: Config, s: State<S>, a: Action)
    requires PastFork(s) && s.fork == NOTHING
    ensures Next(k, cfg, s, a).fork == NOTHING
  {
    hide Agrees, MayFork, MayFanOut, MayList, IndexAfter, PcAfter, WsAfter, ModulesAfter, EventOf;
    NothingAbandoned();
  }
}
