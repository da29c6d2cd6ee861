/** Which migrations come about: a fork's data can be copied exactly when there is something to migrate,
    and a wake-up that was decided in time goes on while data is copied. */
module MigrationReach {
  import opened Common
  import opened HelmScaling
  import opened ModuleProtocol
  import opened ModuleRuns
  import opened ModuleProgress
  import opened DataMigration

  /** Some run without outside edits leads from one world to the other. */
  ghost predicate Goes(plan: Plan, w: World, v: World) {
    exists run :: Unedited(run) && Steps(plan, w, run) == v
  }

  lemma GoesSelf(plan: Plan, w: World)
    ensures Goes(plan, w, w)
  {
    assert Unedited([]) && Steps(plan, w, []) == w;
  }

  lemma GoesStep(plan: Plan, w: World, v: World, m: Move)
    requires Goes(plan, w, v) && !Edit(m)
    ensures Goes(plan, w, Step(plan, v, m))
  {
    hide Step;
    var run :| Unedited(run) && Steps(plan, w, run) == v;
    assert (run + [m])[..|run|] == run;
    assert Unedited(run + [m]) && Steps(plan, w, run + [m]) == Step(plan, v, m);
  }

  /** A world with one module in another state. */
  function WithMod(v: World, side: Side, s: State): World {
    Put(v, side, At(v, side).(mod := s))
  }

  lemma WithModSelf(v: World, side: Side)
    ensures WithMod(v, side, At(v, side).mod) == v
  {
  }

  lemma GoesNext(plan: Plan, w: World, v: World, side: Side, s: State, a: Action)
    requires Goes(plan, w, WithMod(v, side, s)) && !a.SetHibernated? && !a.RequestDelete?
    ensures Goes(plan, w, WithMod(v, side, Next(CfgOf(plan, side), s, a)))
  {
    hide Next, Goes;
    GoesStep(plan, w, WithMod(v, side, s), Module(side, a));
  }

  lemma GoesOperation(plan: Plan, w: World, v: World, side: Side, s: State, mem: Option<ReplicaHistory>, c: Cluster)
    requires Goes(plan, w, WithMod(v, side, s))
    ensures Goes(plan, w, WithMod(v, side, Operation(CfgOf(plan, side), s, true, mem, c, Ok)))
  {
    hide Next, Goes, WithMod;
    var cfg := CfgOf(plan, side);
    GoesNext(plan, w, v, side, s, Write(Ok));
    var s1 := Next(cfg, s, Write(Ok));
    GoesNext(plan, w, v, side, s1, Gate(true, true, Ok));
    var s2 := Next(cfg, s1, Gate(true, true, Ok));
    GoesNext(plan, w, v, side, s2, Manager(true, mem, c));
    var s3 := Next(cfg, s2, Manager(true, mem, c));
    GoesNext(plan, w, v, side, s3, Write(Ok));
    GoesNext(plan, w, v, side, Next(cfg, s3, Write(Ok)), Write(Ok));
  }

  // ---------------------------------------------------------------- putting a module to sleep

  /** No reconcile is in flight and nobody deletes the module. */
  predicate AtRest(s: State) {
    s.pc.Idle? && s.obj.stored && !s.obj.deleting
  }

  const OPEN := Some(WorkspaceView(true, WsReady, false))

  lemma Opened(cfg: Config, s: State)
    requires AtRest(s)
    ensures var t := Next(cfg, s, WorkspaceChanges(OPEN)); Workable(t) && t == s.(workspace := OPEN)
  {
  }

  /** A flagged module that is ready or asleep can fall asleep (its workspace being ready). */
  lemma FallsAsleep(plan: Plan, w: World, v: World, side: Side) returns (s: State)
    requires Goes(plan, w, v) && AtRest(At(v, side).mod)
    requires Settled(At(v, side).mod.obj.phase) && At(v, side).mod.obj.hibernated
    ensures Goes(plan, w, WithMod(v, side, s)) && AtRest(s) && s.obj.phase.Sleeped? && s.obj.hibernated
  {
    hide Next, Goes, Operation, Unsettled, SleepRel, Own;
    s := At(v, side).mod;
    WithModSelf(v, side);
    if s.obj.phase.Ready? {
      var cfg := CfgOf(plan, side);
      Opened(cfg, s);
      GoesNext(plan, w, v, side, s, WorkspaceChanges(OPEN));
      var open := Next(cfg, s, WorkspaceChanges(OPEN));
      var h, c := SleepCanSucceed(cfg.release, open.obj.history, open.cluster);
      Sleeps(cfg, open, h, c, Ok);
      GoesNext(plan, w, v, side, open, Start(true));
      GoesOperation(plan, w, v, side, Next(cfg, open, Start(true)), h, c);
      s := Operation(cfg, Next(cfg, open, Start(true)), true, h, c, Ok);
    }
  }

  /** The goroutine's copy is right about the flag. */
  predicate FlagKnown(p: Party) {
    p.copy.hibernated == p.mod.obj.hibernated
  }

  lemma Flags(plan: Plan, v: World, side: Side)
    requires v.pc == Flag(side) && At(v, side).mod.obj.stored && FlagKnown(At(v, side))
    ensures var u := Step(plan, v, Patch(Ok)); var m := Flagged(At(v, side).mod, true);
            && u.pc == Poll(side, POLLS) && At(u, side).mod == m && u.copied == v.copied
            && (side.Src? ==> u.dst == v.dst) && (side.Dst? ==> u.src == v.src)
  {
  }

  lemma Sees(plan: Plan, v: World, side: Side)
    requires v.pc == Poll(side, POLLS) && At(v, side).mod.obj.stored && At(v, side).mod.obj.phase.Sleeped?
    ensures var u := Step(plan, v, Get(true));
            && u.pc == AsleepPc(side) && At(u, side) == Party(At(v, side).mod, At(v, side).mod.obj)
            && u.copied == v.copied
            && (side.Src? ==> u.dst == v.dst) && (side.Dst? ==> u.src == v.src)
  {
  }

  /** One hibernate-and-wait that succeeds; the other module is left alone. */
  lemma Hibernates(plan: Plan, w: World, v: World, side: Side) returns (u: World)
    requires Goes(plan, w, v) && v.pc == Flag(side) && FlagKnown(At(v, side))
    requires AtRest(At(v, side).mod) && Settled(At(v, side).mod.obj.phase)
    ensures Goes(plan, w, u) && u.pc == AsleepPc(side) && u.copied == v.copied
    ensures (side.Src? ==> u.dst == v.dst) && (side.Dst? ==> u.src == v.src)
  {
    hide Goes, Step;
    GoesStep(plan, w, v, Patch(Ok));
    Flags(plan, v, side);
    var flagged := Step(plan, v, Patch(Ok));
    var s := FallsAsleep(plan, w, flagged, side);
    var asleep := WithMod(flagged, side, s);
    GoesStep(plan, w, asleep, Get(true));
    Sees(plan, asleep, side);
    u := Step(plan, asleep, Get(true));
  }

  // ---------------------------------------------------------------- the new module

  /** A new module that is not adopted (as no copy is) can be installed. */
  lemma Arrives(plan: Plan, w: World, v: World) returns (s: State)
    requires Goes(plan, w, v) && AtRest(v.dst.mod) && !plan.dst.adopted
    requires v.dst.mod.obj.phase.Empty? || Settled(v.dst.mod.obj.phase)
    ensures Goes(plan, w, WithMod(v, Dst, s)) && AtRest(s) && Settled(s.obj.phase)
  {
    hide Next, Goes, Operation, Unsettled;
    s := v.dst.mod;
    WithModSelf(v, Dst);
    if s.obj.phase.Empty? {
      Opened(plan.dst, s);
      GoesNext(plan, w, v, Dst, s, WorkspaceChanges(OPEN));
      var open := Next(plan.dst, s, WorkspaceChanges(OPEN));
      GoesNext(plan, w, v, Dst, open, Start(true));
      GoesNext(plan, w, v, Dst, Next(plan.dst, open, Start(true)), Write(Ok));
      var announced := Next(plan.dst, Next(plan.dst, open, Start(true)), Write(Ok));
      Installs(plan.dst, open, true, open.cluster);
      GoesOperation(plan, w, v, Dst, announced, open.obj.history, open.cluster);
      var ready := Operation(plan.dst, announced, true, open.obj.history, open.cluster, Ok);
      GoesNext(plan, w, v, Dst, ready, Crash);
      Crashed(plan.dst, ready);
      s := Next(plan.dst, ready, Crash);
    }
  }

  lemma Crashed(cfg: Config, s: State)
    ensures Next(cfg, s, Crash) == s.(pc := Idle)
  {
  }

  lemma Launches(plan: Plan, v: World)
    requires v.pc == Expecting(POLLS) && v.dst.mod.obj.stored && Settled(v.dst.mod.obj.phase)
    ensures var u := Step(plan, v, Get(true));
            && u.pc == LaunchPc(plan) && u.dst == Party(v.dst.mod, v.dst.mod.obj) && u.src == v.src
            && u.copied == v.copied
  {
  }

  /** A fork at rest: the source is ready or asleep, the new module just created or already that far. */
  ghost predicate Resting(plan: Plan, w: World) {
    && Forked(plan, w) && !plan.dst.adopted
    && AtRest(w.src.mod) && (w.src.mod.obj.phase.Ready? || w.src.mod.obj.phase.Sleeped?)
    && AtRest(w.dst.mod)
    && (w.dst.mod.obj.phase.Empty? || w.dst.mod.obj.phase.Ready? || w.dst.mod.obj.phase.Sleeped?)
  }

  /** The migration gets to the point where only the source has to be put to sleep. */
  lemma ReachesSource(plan: Plan, w: World, v: World) returns (u: World)
    requires Goes(plan, w, v) && ToMigrate(plan) && v.pc == Expecting(POLLS) && v.copied == 0
    requires AtRest(v.dst.mod) && (v.dst.mod.obj.phase.Empty? || Settled(v.dst.mod.obj.phase)) && !plan.dst.adopted
    ensures Goes(plan, w, u) && u.pc == Flag(Src) && u.src == v.src && u.copied == 0
  {
    hide Goes, Step;
    var s := Arrives(plan, w, v);
    var arrived := WithMod(v, Dst, s);
    GoesStep(plan, w, arrived, Get(true));
    Launches(plan, arrived);
    u := Hibernates(plan, w, Step(plan, arrived, Get(true)), Dst);
  }

  // ---------------------------------------------------------------- results

  /** Without anything to migrate no run copies, whatever Secrets and ConfigMaps are listed. */
  lemma {:induction false} NothingToMigrate(plan: Plan, w: World, run: seq<Move>)
    requires !plan.wanted || !plan.src.helm || plan.volumes == 0
    requires w.pc.Expecting? && w.copied == 0
    ensures var v := Steps(plan, w, run);
            v.copied == 0 && (v.pc.Expecting? || v.pc == Finished(Skipped) || v.pc == Finished(NeverSettled))
  {
    hide Next;
    if run != [] {
      NothingToMigrate(plan, w, run[..|run| - 1]);
    }
  }

  /** From every fork at rest some run without outside edits copies data if and only if the fork asks for
      it, the source is a Helm module and it lists a volume. */
  lemma CopiesIff(plan: Plan, w: World)
    requires Resting(plan, w)
    ensures (exists run :: Unedited(run) && Steps(plan, w, run).copied > 0)
            <==> plan.wanted && plan.src.helm && plan.volumes > 0
  {
    hide Inv, Steps, Step;
    if ToMigrate(plan) {
      GoesSelf(plan, w);
      var v := ReachesSource(plan, w, w);
      var u := Hibernates(plan, w, v, Src);
      GoesStep(plan, w, u, CopyOne);
      CopiesOne(plan, u);
      var run :| Unedited(run) && Steps(plan, w, run) == Step(plan, u, CopyOne);
      assert Steps(plan, w, run).copied > 0;
    } else {
      forall run
        ensures Steps(plan, w, run).copied == 0
      {
        NothingToMigrate(plan, w, run);
      }
    }
  }

  lemma CopiesOne(plan: Plan, u: World)
    requires u.pc.Copying?
    ensures Step(plan, u, CopyOne).copied == u.copied + 1
  {
  }

  // ---------------------------------------------------------------- the race

  lemma WakeUpDecided(cfg: Config, s: State)
    requires AtRest(s) && s.obj.phase.Sleeped? && !s.obj.hibernated
    ensures Next(cfg, s, Start(true)) == s.(pc := Announcing(Resume))
  {
  }

  lemma WakeUpGoesOn(plan: Plan, v: World)
    requires v.pc.Copying? && WakeDecided(v.src.mod) && v.src.mod.obj.stored
    ensures var u := Step(plan, v, Module(Src, Write(Ok)));
            u.pc.Copying? && u.src.mod.obj.phase.Resuming? && u.src.copy == v.src.copy
  {
  }

  /** The exception is real: from every fork at rest whose source is asleep with its flag just cleared,
      some run without outside edits copies while the source, seen asleep and flagged, wakes up. */
  lemma WakesWhileCopying(plan: Plan, w: World)
    requires Resting(plan, w) && plan.wanted && plan.src.helm && plan.volumes > 0
    requires w.src.mod.obj.phase.Sleeped? && !w.src.mod.obj.hibernated
    ensures exists run :: && Unedited(run) && Steps(plan, w, run).pc.Copying?
                          && SeenAsleep(Steps(plan, w, run).src) && Steps(plan, w, run).src.mod.obj.phase.Resuming?
  {
    hide Inv, Steps, Step, Next;
    GoesSelf(plan, w);
    WithModSelf(w, Src);
    GoesNext(plan, w, w, Src, w.src.mod, Start(true));
    WakeUpDecided(plan.src, w.src.mod);
    var v := ReachesSource(plan, w, WithMod(w, Src, Next(plan.src, w.src.mod, Start(true))));
    GoesStep(plan, w, v, Patch(Ok));
    Flags(plan, v, Src);
    var flagged := Step(plan, v, Patch(Ok));
    GoesStep(plan, w, flagged, Get(true));
    Sees(plan, flagged, Src);
    var copying := Step(plan, flagged, Get(true));
    GoesStep(plan, w, copying, Module(Src, Write(Ok)));
    WakeUpGoesOn(plan, copying);
    var run :| Unedited(run) && Steps(plan, w, run) == Step(plan, copying, Module(Src, Write(Ok)));
    assert Steps(plan, w, run).pc.Copying?;
  }

  /** A module that was installed and put to sleep, its flag cleared since. */
  function Sleeper(phase: Phase, trace: seq<Call>): State {
    var obj := Object(true, phase, false, false, !phase.Empty?, Some(0), None);
    State(obj, 0, OPEN, map[], Idle, None, trace, map[], false)
  }

  /** And there are such forks. */
  lemma SomeFork(plan: Plan) returns (w: World)
    requires !plan.src.adopted && !plan.dst.adopted
    ensures Resting(plan, w) && w.src.mod.obj.phase.Sleeped? && !w.src.mod.obj.hibernated
  {
    var src, dst := Sleeper(Sleeped, [Install] + [Sleep]), Sleeper(Empty, []);
    RunAppend([Install], Sleep);
    RunAppend([], Install);
    assert [] + [Install] == [Install];
    assert Run(src.trace).Asleep?;
    w := World(Party(src, src.obj), Party(dst, dst.obj), false, Expecting(POLLS), 0, false, false);
  }
}
