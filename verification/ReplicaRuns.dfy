/** What waking up does to replica counts, over whole runs: exactly which counts a module is ready with
    again, and when these are the ones it was put to sleep with. */
module ReplicaRuns {
  import opened Common
  import opened HelmScaling
  import opened ModuleProtocol
  import opened ModuleRuns
  import opened ModuleProgress
  import ModuleFate

  // ---------------------------------------------------------------- counts while asleep

  /** The counts of workloads `ks` after replaying a table on them from zero. */
  function Replayed(t: map<Key, int>, ks: set<Key>): map<Key, int> {
    map k | k in ks :: if k in t then t[k] else 0
  }

  /** Asleep, the own workloads are the saved ones, all at zero; once woken, their counts are the
      replay of the stored history. */
  ghost predicate CountsFit(m: Memory, own: map<Key, int>, phase: Phase, pc: Pc) {
    && (Slumber(phase, pc) || pc == Recording(Sleep, true) ==> own == Replayed(map[], m.saved.Keys))
    && (Woken(pc) ==> m.stored.Some? && own == Replayed(HistoryTable(m.stored.value), m.saved.Keys))
  }

  ghost function MemoryOf(s: State): Memory {
    Memory(s.mem, s.obj.history, s.saved, s.durable)
  }

  ghost predicate CountsInv(cfg: Config, s: State) {
    Inv(cfg, s) && CountsFit(MemoryOf(s), Own(cfg.release, s.cluster), s.obj.phase, s.pc)
  }

  lemma WriteKeepsCounts(own: map<Key, int>, s: State, o: Outcome)
    requires ObjectFits(s.obj, s.pc) && CountsFit(MemoryOf(s), own, s.obj.phase, s.pc)
    requires HistoryFits(MemoryOf(s), own, s.obj.phase, s.pc)
    ensures var s' := DoWrite(s, o); CountsFit(MemoryOf(s'), own, s'.obj.phase, s'.pc)
  {
    hide HistoryTable, Replayed, Holds;
  }

  lemma GateKeepsCounts(cfg: Config, own: map<Key, int>, s: State, wsReadable: bool, built: bool, o: Outcome)
    requires CountsFit(MemoryOf(s), own, s.obj.phase, s.pc) && ObjectFits(s.obj, s.pc)
    ensures var s' := DoGate(cfg, s, wsReadable, built, o); CountsFit(MemoryOf(s'), own, s'.obj.phase, s'.pc)
  {
    hide HistoryTable, Replayed, AfterGate;
    if s.pc.Gating? {
      GateExits(cfg, s.workspace, s.pc.op, wsReadable, built, o);
    }
  }

  /** Replaying a history on sleeping workloads. */
  lemma ReplayOwn(r: Release, c: Cluster, t: map<Key, int>, ks: set<Key>)
    requires Own(r, c) == Replayed(map[], ks)
    ensures Own(r, Restored(c, t)) == Replayed(t, ks)
  {
    assert Own(r, c).Keys == ks;
    forall k | k in c && Matches(r, k, c[k])
      ensures k in ks && CountOf(c[k]) == 0
    {
      assert Own(r, c)[k] == CountOf(c[k]);
    }
    assert forall k | k in ks :: k in Own(r, c);
  }

  lemma ZeroOwn(r: Release, c: Cluster)
    ensures Own(r, Scaled(c, OwnKeys(r, c), 0)) == Replayed(map[], Own(r, c).Keys)
  {
  }

  lemma ManagerKeepsCounts(cfg: Config, s: State, ok: bool, mem: Option<ReplicaHistory>, cluster: Cluster)
    requires cfg.helm && CountsInv(cfg, s) && CanReturn(cfg, s, ok, mem, cluster)
    ensures var s' := DoManager(cfg, s, ok, mem, cluster);
            CountsFit(MemoryOf(s'), Own(cfg.release, cluster), s'.obj.phase, s'.pc)
  {
    hide AutoFits, OriginFits, Run, OriginOf, HistoryTable, Own, OwnKeys, Scaled, Restored, Replayed;
    if s.pc.op.Sleep? && ok {
      ZeroOwn(cfg.release, s.cluster);
    } else if s.pc.op.Resume? && ok {
      ReplayOwn(cfg.release, s.cluster, HistoryTable(s.mem.value), s.saved.Keys);
    }
  }

  lemma RestKeepsCounts(cfg: Config, s: State, a: Action)
    requires CountsInv(cfg, s) && !a.Write? && !a.Gate? && !a.Manager?
    ensures var s' := Next(cfg, s, a); CountsFit(MemoryOf(s'), Own(cfg.release, s'.cluster), s'.obj.phase, s'.pc)
  {
    hide AutoFits, OriginFits, HistoryFits, Run, OriginOf, HistoryTable, Own, Replayed;
  }

  lemma StepKeepsCounts(cfg: Config, s: State, a: Action)
    requires cfg.helm && CountsInv(cfg, s)
    ensures CountsInv(cfg, Next(cfg, s, a))
  {
    StepKeepsInv(cfg, s, a);
    hide CountsFit, ObjectFits, AutoFits, OriginFits, HistoryFits, Own, Run, OriginOf;
    if a.Write? {
      WriteKeepsCounts(Own(cfg.release, s.cluster), s, a.o);
    } else if a.Gate? {
      GateKeepsCounts(cfg, Own(cfg.release, s.cluster), s, a.wsReadable, a.built, a.o);
    } else if a.Manager? {
      if CanReturn(cfg, s, a.ok, a.mem, a.cluster) {
        ManagerKeepsCounts(cfg, s, a.ok, a.mem, a.cluster);
      }
    } else {
      RestKeepsCounts(cfg, s, a);
    }
  }

  lemma {:induction false} ReachableCounts(cfg: Config, s0: State, run: seq<Action>)
    requires Fresh(s0) && cfg.helm
    ensures CountsInv(cfg, Exec(cfg, s0, run))
  {
    hide Inv, Next, CountsFit;
    if run == [] {
      FreshCounts(cfg, s0);
    } else {
      ReachableCounts(cfg, s0, run[..|run| - 1]);
      StepKeepsCounts(cfg, Exec(cfg, s0, run[..|run| - 1]), run[|run| - 1]);
    }
  }

  lemma FreshCounts(cfg: Config, s: State)
    requires Fresh(s)
    ensures CountsInv(cfg, s)
  {
    FreshInv(cfg, s);
    hide Inv;
  }

  // ---------------------------------------------------------------- restoration

  /** The step that acknowledges a wake-up. */
  ghost predicate Waking(cfg: Config, s: State, a: Action) {
    s.obj.phase.Resuming? && Next(cfg, s, a).obj.phase.Ready?
  }

  /** In every run, whatever failed before, a Helm module that becomes ready again after sleeping has
      the workloads it was put to sleep with, each at the count the stored history gives it, and at
      zero if the history does not name it. */
  lemma ReplicasReplayed(cfg: Config, s0: State, run: seq<Action>, a: Action)
    requires Fresh(s0) && cfg.helm && Waking(cfg, Exec(cfg, s0, run), a)
    ensures var s := Exec(cfg, s0, run);
            && s.obj.history.Some?
            && Own(cfg.release, Next(cfg, s, a).cluster) == Replayed(HistoryTable(s.obj.history.value), s.saved.Keys)
  {
    hide Own, Run, OriginOf, HistoryTable, Replayed;
    ReachableCounts(cfg, s0, run);
    var s := Exec(cfg, s0, run);
    assert a.Write? && s.pc == Settling(Resume, true);
  }

  /** So it has exactly the counts it had when its last Sleep call began if and only if the stored history
      agrees with them, an unnamed workload counting as zero. */
  lemma ReplicasRestoredIff(cfg: Config, s0: State, run: seq<Action>, a: Action)
    requires Fresh(s0) && cfg.helm && Waking(cfg, Exec(cfg, s0, run), a)
    ensures var s := Exec(cfg, s0, run);
            && s.obj.history.Some?
            && var t := HistoryTable(s.obj.history.value);
            Own(cfg.release, Next(cfg, s, a).cluster) == s.saved
            <==> forall k | k in s.saved :: s.saved[k] == if k in t then t[k] else 0
  {
    ReplicasReplayed(cfg, s0, run, a);
    hide Own, HistoryTable, Next;
    var s := Exec(cfg, s0, run);
    var t := HistoryTable(s.obj.history.value);
    ReplayedIs(t, s.saved);
  }

  lemma ReplayedIs(t: map<Key, int>, saved: map<Key, int>)
    ensures Replayed(t, saved.Keys) == saved <==> forall k | k in saved :: saved[k] == if k in t then t[k] else 0
  {
    if Replayed(t, saved.Keys) == saved {
      forall k | k in saved
        ensures saved[k] == if k in t then t[k] else 0
      {
        assert Replayed(t, saved.Keys)[k] == saved[k];
      }
    }
  }

  /** In particular if the annotation patch after that Sleep landed. */
  lemma ReplicasRestored(cfg: Config, s0: State, run: seq<Action>, a: Action)
    requires Fresh(s0) && cfg.helm && Waking(cfg, Exec(cfg, s0, run), a) && Exec(cfg, s0, run).durable
    ensures var s := Exec(cfg, s0, run); Own(cfg.release, Next(cfg, s, a).cluster) == s.saved
  {
    hide Own, Run, OriginOf, HistoryTable;
    ReplicasReplayed(cfg, s0, run, a);
    ReachableInv(cfg, s0, run);
    var s := Exec(cfg, s0, run);
    assert a.Write? && s.pc == Settling(Resume, true);
    if s.saved == map[] {
      assert Replayed(HistoryTable(s.obj.history.value), s.saved.Keys) == map[];
    }
  }

  /** `saved` is what it is said to be: it only changes in a Sleep call, and then becomes the
      counts of the moment. */
  lemma SavedAtSleep(cfg: Config, s: State, a: Action)
    ensures var s' := Next(cfg, s, a);
            if s'.trace == s.trace + [Sleep] then s'.saved == Own(cfg.release, s.cluster) else s'.saved == s.saved
  {
    hide SleepRel, ResumeRel, Own;
    assert |s.trace + [Sleep]| != |s.trace|;
    if a.Manager? && CanReturn(cfg, s, a.ok, a.mem, a.cluster) {
      assert Next(cfg, s, a).trace[|s.trace|] == s.pc.op;
    }
  }

  // ---------------------------------------------------------------- without the patch

  /** A ready module that is to stay awake. */
  predicate Up(s: State) {
    Workable(s) && s.obj.phase.Ready? && !s.obj.hibernated
  }

  /** A ready module is flagged, sleeps (the annotation patch ending in `o`), and has its flag cleared. */
  lemma SleepCycle(cfg: Config, s0: State, s: State, o: Outcome) returns (t: State)
    requires cfg.helm && Reaches(cfg, s0, s) && Up(s)
    ensures Reaches(cfg, s0, t) && Workable(t) && t.obj.phase.Sleeped? && !t.obj.hibernated
    ensures t.saved == Own(cfg.release, s.cluster) && Own(cfg.release, t.cluster).Keys == t.saved.Keys
    ensures o.Rejected? ==> t.obj.history == s.obj.history
    ensures o.Ok? && t.saved != map[] ==> t.obj.history.Some? && HistoryTable(t.obj.history.value) == t.saved
  {
    hide Next, Own, Reaches, Operation, Unsettled, HistoryTable;
    var told := Next(cfg, s, SetHibernated(true));
    Told(cfg, s, true);
    ReachesNext(cfg, s0, s, SetHibernated(true));
    var h, slept := SleepCanSucceed(cfg.release, told.obj.history, told.cluster);
    Sleeps(cfg, told, h, slept, o);
    ReachesNext(cfg, s0, told, Start(true));
    ReachesUnsettled(cfg, s0, Next(cfg, told, Start(true)), true, h, slept, o);
    var asleep := Operation(cfg, Next(cfg, told, Start(true)), true, h, slept, o);
    ScaledKeepsOwnKeys(cfg.release, s.cluster, OwnKeys(cfg.release, s.cluster), 0);
    Told(cfg, asleep, false);
    ReachesNext(cfg, s0, asleep, SetHibernated(false));
    t := Next(cfg, asleep, SetHibernated(false));
  }

  /** It wakes up; the last step acknowledges that. */
  lemma WakeCycle(cfg: Config, s0: State, s: State) returns (u: State, t: State)
    requires cfg.helm && Reaches(cfg, s0, s) && Workable(s) && s.obj.phase.Sleeped? && !s.obj.hibernated
    requires s.obj.history.Some? && HistoryTable(s.obj.history.value).Keys == Own(cfg.release, s.cluster).Keys
    ensures Reaches(cfg, s0, u) && t == Next(cfg, u, Write(Ok)) && u.obj.phase.Resuming? && u.saved == s.saved
    ensures Reaches(cfg, s0, t) && Up(t) && t.obj.history == s.obj.history
    ensures Own(cfg.release, t.cluster) == HistoryTable(s.obj.history.value)
  {
    var h := s.obj.history.value;
    OwnKeysStored(cfg.release, s.cluster);
    ResumeCanSucceed(h, s.cluster);
    RestoreOwn(cfg.release, s.cluster, HistoryTable(h));
    hide Next, Own, Reaches, Operation, Unsettled, HistoryTable, Restored, ResumeRel;
    var woken := Restored(s.cluster, HistoryTable(h));
    Wakes(cfg, s, woken);
    ReachesNext(cfg, s0, s, Start(true));
    ReachesUnsettled(cfg, s0, Next(cfg, s, Start(true)), true, s.obj.history, woken, Ok);
    u := Unsettled(cfg, Next(cfg, s, Start(true)), true, s.obj.history, woken, Ok);
    t := Operation(cfg, Next(cfg, s, Start(true)), true, s.obj.history, woken, Ok);
  }

  lemma OwnKeysStored(r: Release, c: Cluster)
    ensures Own(r, c).Keys <= c.Keys
  {
  }

  /** A new module is installed and somebody may then scale its workloads. */
  lemma FirstReady(cfg: Config, s0: State) returns (t: State)
    requires Workable(s0) && s0.obj.phase.Empty? && !s0.obj.hibernated && !cfg.adopted
    ensures Reaches(cfg, s0, t) && Up(t) && t.cluster == s0.cluster
  {
    hide Next, Reaches, Operation, Unsettled;
    ReachesSelf(cfg, s0);
    ReachesNext(cfg, s0, s0, Start(true));
    ReachesNext(cfg, s0, Next(cfg, s0, Start(true)), Write(Ok));
    var announced := Next(cfg, Next(cfg, s0, Start(true)), Write(Ok));
    Installs(cfg, s0, true, s0.cluster);
    ReachesUnsettled(cfg, s0, announced, true, s0.obj.history, s0.cluster, Ok);
    t := Operation(cfg, announced, true, s0.obj.history, s0.cluster, Ok);
  }

  lemma Rescaled(cfg: Config, s: State, c: Cluster)
    requires s.obj.phase.Ready?
    ensures Next(cfg, s, Rescale(c)) == s.(cluster := c)
  {
  }

  /** The condition is needed: for every new module whose release has workloads, and every other way `c`
      of scaling these, there is a run in which it is put to sleep with the counts of `c`, the annotation
      patch is rejected, and it is ready again with the counts of its previous sleep. */
  lemma LostPatchRestoresOldCounts(cfg: Config, s0: State, c: Cluster)
    requires Fresh(s0) && cfg.helm && !cfg.adopted && Workable(s0) && !s0.obj.hibernated
    requires Own(cfg.release, s0.cluster) != map[] && Own(cfg.release, c).Keys == Own(cfg.release, s0.cluster).Keys
    ensures exists run, a ::
              && Waking(cfg, Exec(cfg, s0, run), a) && Exec(cfg, s0, run).saved == Own(cfg.release, c)
              && Own(cfg.release, Next(cfg, Exec(cfg, s0, run), a).cluster) == Own(cfg.release, s0.cluster)
  {
    hide Next, Own, HistoryTable, Exec;
    var t1 := FirstReady(cfg, s0);
    var t2 := SleepCycle(cfg, s0, t1, Ok);
    var u3, t3 := WakeCycle(cfg, s0, t2);
    ReachesNext(cfg, s0, t3, Rescale(c));
    Rescaled(cfg, t3, c);
    var t4 := SleepCycle(cfg, s0, Next(cfg, t3, Rescale(c)), Rejected);
    var u5, t5 := WakeCycle(cfg, s0, t4);
    var run :| Exec(cfg, s0, run) == u5;
    assert Waking(cfg, Exec(cfg, s0, run), Write(Ok));
  }

  // ---------------------------------------------------------------- which modules can wake at all

  /** The cluster with workloads of nobody's added, so that all of `ks` exist. */
  function Padded(c: Cluster, ks: set<Key>): Cluster {
    map k | k in c.Keys + ks :: if k in c then c[k] else Workload(None, None)
  }

  lemma PaddedOwn(r: Release, c: Cluster, ks: set<Key>)
    ensures Own(r, Padded(c, ks)) == Own(r, c) && ks <= Padded(c, ks).Keys
  {
  }

  lemma Roused(cfg: Config, s: State, c: Cluster)
    requires s.pc.Idle? && s.obj.stored && !s.obj.deleting && Own(cfg.release, c) == Own(cfg.release, s.cluster)
    ensures var ws := Some(WorkspaceView(true, WsReady, false));
            var t := Next(cfg, Next(cfg, Next(cfg, s, SetHibernated(false)), WorkspaceChanges(ws)), Rescale(c));
            Workable(t) && t.obj == s.obj.(hibernated := false) && t.cluster == c
  {
    hide Own;
  }

  /** A sleeping Helm module can become ready in some run if and only if a history is stored; this also
      decides for releases without workloads, whose stored history is an older one or none. */
  lemma WakesIff(cfg: Config, s: State)
    requires cfg.helm && Inv(cfg, s) && s.pc.Idle? && s.obj.stored && !s.obj.deleting && s.obj.phase.Sleeped?
    ensures (exists run :: Exec(cfg, s, run).obj.phase.Ready?) <==> s.obj.history.Some?
  {
    hide Inv, Own, Next, Exec;
    if s.obj.history.Some? {
      var t := HistoryTable(s.obj.history.value);
      var c := Padded(s.cluster, t.Keys);
      PaddedOwn(cfg.release, s.cluster, t.Keys);
      Roused(cfg, s, c);
      var told := Next(cfg, s, SetHibernated(false));
      var ws := Some(WorkspaceView(true, WsReady, false));
      var roused := Next(cfg, Next(cfg, told, WorkspaceChanges(ws)), Rescale(c));
      ReachesSelf(cfg, s);
      ReachesNext(cfg, s, s, SetHibernated(false));
      ReachesNext(cfg, s, told, WorkspaceChanges(ws));
      ReachesNext(cfg, s, Next(cfg, told, WorkspaceChanges(ws)), Rescale(c));
      ResumeCanSucceed(s.obj.history.value, c);
      Wakes(cfg, roused, Restored(c, t));
      ReachesNext(cfg, s, roused, Start(true));
      ReachesUnsettled(cfg, s, Next(cfg, roused, Start(true)), true, s.obj.history, Restored(c, t), Ok);
      var awake := Operation(cfg, Next(cfg, roused, Start(true)), true, s.obj.history, Restored(c, t), Ok);
      assert awake.obj.phase.Ready?;
      var run :| Exec(cfg, s, run) == awake;
      assert Exec(cfg, s, run).obj.phase.Ready?;
    } else {
      forall run
        ensures !Exec(cfg, s, run).obj.phase.Ready?
      {
        ModuleFate.ForgottenNeverWakes(cfg, s, run);
      }
    }
  }
}
