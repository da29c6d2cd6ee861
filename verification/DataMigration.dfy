/** Moving a forked module's data, as a protocol: the migrating goroutine puts the new module and then
    the source module to sleep, copies, and restores both flags, while the two modules' own
    reconciles go on in between. */
module DataMigration {
  import opened Common
  import opened HelmScaling
  import opened ModuleProtocol
  import opened ModuleRuns
  import opened ModuleFate

  datatype Side = Src | Dst

  /** One module and the copy of it that the goroutine holds. */
  datatype Party = Party(mod: State, copy: Object)

  /** How far a migration got.  It never settled if the new module was not seen ready or asleep in time,
      and was skipped if there is nothing to migrate.  A side is unflagged if its hibernation patch
      failed, and not asleep if it was not seen asleep in time. */
  datatype Stage = NeverSettled | Skipped | Unflagged(side: Side) | NotAsleep(side: Side) | Copied

  datatype MPc =
    | Expecting(left: nat)
    | Flag(side: Side)
    | Poll(side: Side, left: nat)
    | Copying
    | RestoreSrc
    | ClearDst(stage: Stage)
    | Finished(stage: Stage)

  /** What to migrate: whether the fork asks for data at all, and how many volumes the source lists. */
  datatype Plan = Plan(src: Config, dst: Config, wanted: bool, volumes: nat)

  /** Only Helm modules with volumes have anything to migrate, whatever Secrets and ConfigMaps they list. */
  predicate ToMigrate(plan: Plan) {
    plan.wanted && plan.src.helm && plan.volumes > 0
  }

  /** `oldFlag` is the source's flag in the listing the fork was made from.  History variables:
      `copied` counts copying steps, `raced` says that a wake-up was already under way when a module
      was taken to be hibernated, `missed` that a restoring patch did not land. */
  datatype World = World(
    src: Party, dst: Party, oldFlag: bool, pc: MPc, copied: nat, raced: bool, missed: bool)

  datatype Move = Module(side: Side, a: Action) | Patch(o: Outcome) | Get(readable: bool) | CopyOne | EndCopy

  const POLLS := 180

  function At(w: World, side: Side): Party {
    if side.Src? then w.src else w.dst
  }

  function Put(w: World, side: Side, p: Party): World {
    w.(src := if side.Src? then p else w.src, dst := if side.Dst? then p else w.dst)
  }

  function CfgOf(plan: Plan, side: Side): Config {
    if side.Src? then plan.src else plan.dst
  }

  predicate WakeDecided(s: State) {
    s.pc == Announcing(Resume)
  }

  /** The module with its flag set through the API. */
  function Flagged(s: State, value: bool): State {
    s.(obj := if s.obj.stored then s.obj.(hibernated := value) else s.obj)
  }

  function Fail(side: Side, stage: Stage): MPc {
    if side.Dst? then Finished(stage) else ClearDst(stage)
  }

  function AsleepPc(side: Side): MPc {
    if side.Dst? then Flag(Src) else Copying
  }

  function AfterPoll(side: Side, phase: Phase, left: nat): MPc {
    match phase
    case Sleeped => AsleepPc(side)
    case Uninstalling => Fail(side, NotAsleep(side))
    case Failed => Fail(side, NotAsleep(side))
    case _ => Poll(side, left)
  }

  predicate Settled(p: Phase) {
    p.Ready? || p.Sleeped?
  }

  function LaunchPc(plan: Plan): MPc {
    if ToMigrate(plan) then Flag(Dst) else Finished(Skipped)
  }

  /** One round of waiting for the new module, or the test after the last. */
  function DoExpect(plan: Plan, w: World, left: nat, readable: bool): World {
    var m := w.dst.mod;
    if left == 0 then w.(pc := if Settled(w.dst.copy.phase) then LaunchPc(plan) else Finished(NeverSettled))
    else if !readable || !m.obj.stored then w.(pc := Expecting(left - 1))
    else w.(dst := w.dst.(copy := m.obj),
            pc := if Settled(m.obj.phase) then LaunchPc(plan)
                  else if m.obj.phase.Uninstalling? || m.obj.phase.Failed? then Finished(NeverSettled)
                  else Expecting(left - 1),
            raced := w.raced || (Settled(m.obj.phase) && m.obj.hibernated && WakeDecided(m)))
  }

  /** Flags a module for hibernation, unless the copy says it is flagged. */
  function DoFlag(w: World, side: Side, o: Outcome): World {
    var p := At(w, side);
    if p.copy.hibernated then w.(pc := Poll(side, POLLS))
    else if !p.mod.obj.stored || o.Rejected? then w.(pc := Fail(side, Unflagged(side)))
    else
      var m := Flagged(p.mod, true);
      Put(w, side, Party(m, m.obj)).(pc := if o.Ok? then Poll(side, POLLS) else Fail(side, Unflagged(side)),
                                     raced := w.raced || WakeDecided(p.mod))
  }

  /** One round of the waiting loop, or the test after it. */
  function DoPoll(w: World, side: Side, left: nat, readable: bool): World {
    var p := At(w, side);
    if left == 0 then w.(pc := if p.copy.phase.Sleeped? then AsleepPc(side) else Fail(side, NotAsleep(side)))
    else if !readable || !p.mod.obj.stored then w.(pc := Poll(side, left - 1))
    else Put(w, side, p.(copy := p.mod.obj)).(pc := AfterPoll(side, p.mod.obj.phase, left - 1))
  }

  /** Writes a flag back, as the difference to the copy. */
  function DoRestore(w: World, side: Side, value: bool, o: Outcome, next: MPc): World {
    var p := At(w, side);
    var sent := p.copy.hibernated != value;
    Put(w, side, p.(mod := if sent && o.Landed() then Flagged(p.mod, value) else p.mod))
      .(pc := next, missed := w.missed || (sent && !o.Landed()))
  }

  ghost function Step(plan: Plan, w: World, m: Move): World {
    match m
    case Module(side, a) =>
      Put(w, side, At(w, side).(mod := Next(CfgOf(plan, side), At(w, side).mod, a)))
    case Patch(o) =>
      if w.pc.Flag? then DoFlag(w, w.pc.side, o)
      else if w.pc.RestoreSrc? then DoRestore(w, Src, w.oldFlag, o, ClearDst(Copied))
      else if w.pc.ClearDst? then DoRestore(w, Dst, false, o, Finished(w.pc.stage))
      else w
    case Get(readable) =>
      if w.pc.Expecting? then DoExpect(plan, w, w.pc.left, readable)
      else if w.pc.Poll? then DoPoll(w, w.pc.side, w.pc.left, readable)
      else w
    case CopyOne => w.(copied := if w.pc.Copying? then w.copied + 1 else w.copied)
    case EndCopy => w.(pc := if w.pc.Copying? then RestoreSrc else w.pc)
  }

  ghost function Steps(plan: Plan, w: World, run: seq<Move>): World {
    if run == [] then w else Step(plan, Steps(plan, w, run[..|run| - 1]), run[|run| - 1])
  }

  /** Nobody else edits the two modules. */
  predicate Unedited(run: seq<Move>) {
    forall i | 0 <= i < |run| :: run[i].Module? ==> !run[i].a.SetHibernated? && !run[i].a.RequestDelete?
  }

  predicate Edit(m: Move) {
    m.Module? && (m.a.SetHibernated? || m.a.RequestDelete?)
  }

  /** A fork has just listed the source module and created the new one. */
  ghost predicate Forked(plan: Plan, w: World) {
    && Inv(plan.src, w.src.mod) && Inv(plan.dst, w.dst.mod)
    && Live(w.src.mod) && w.dst.mod.obj.stored && !w.dst.mod.obj.deleting && w.dst.copy.phase.Empty?
    && w.src.copy == w.src.mod.obj && w.oldFlag == w.src.copy.hibernated
    && w.pc == Expecting(POLLS) && w.copied == 0 && !w.missed
    && w.raced == (w.src.copy.hibernated && WakeDecided(w.src.mod))
  }

  // ---------------------------------------------------------------- the invariant

  predicate Live(s: State) {
    s.obj.stored && s.obj.finalizer && !s.obj.deleting
  }

  /** The goroutine's copy is right about the flag, and, unless a wake-up was under way, about a
      hibernated module being asleep. */
  ghost predicate Tracked(cfg: Config, p: Party, raced: bool) {
    && Inv(cfg, p.mod) && Live(p.mod) && p.copy.hibernated == p.mod.obj.hibernated
    && (p.copy.hibernated && !raced ==> !WakeDecided(p.mod) && (p.copy.phase.Sleeped? ==> p.mod.obj.phase.Sleeped?))
  }

  predicate SeenAsleep(p: Party) {
    p.copy.hibernated && p.copy.phase.Sleeped?
  }

  /** The flag a module ends with, once the goroutine no longer tracks it. */
  ghost predicate SrcFits(plan: Plan, w: World) {
    match w.pc
    case ClearDst(stage) => SrcDone(w, stage)
    case Finished(stage) => SrcDone(w, stage)
    case _ => Tracked(plan.src, w.src, w.raced)
  }

  predicate SrcDone(w: World, stage: Stage) {
    match stage
    case NeverSettled => w.src.mod.obj.hibernated == w.oldFlag
    case Skipped => w.src.mod.obj.hibernated == w.oldFlag
    case Unflagged(side) => side.Dst? ==> w.src.mod.obj.hibernated == w.oldFlag
    case NotAsleep(side) => w.src.mod.obj.hibernated == (side.Src? || w.oldFlag)
    case Copied => w.missed || w.src.mod.obj.hibernated == w.oldFlag
  }

  /** The stages from the waiting for the source on. */
  predicate AfterSrc(stage: Stage) {
    stage.Copied? || stage == Unflagged(Src) || stage == NotAsleep(Src)
  }

  ghost predicate DstFits(plan: Plan, w: World) {
    match w.pc
    case Expecting(_) => Inv(plan.dst, w.dst.mod) && w.dst.mod.obj.stored && !w.dst.mod.obj.deleting
    case Finished(stage) =>
      AfterSrc(stage) ==> w.missed || !w.dst.mod.obj.hibernated
    case _ => Tracked(plan.dst, w.dst, w.raced)
  }

  /** What the control point knows of the two copies. */
  ghost predicate PcFits(w: World) {
    && (w.pc.Poll? ==> At(w, w.pc.side).copy.hibernated)
    && ((w.pc.Flag? || w.pc.Poll?) && w.pc.side.Src? ==> SeenAsleep(w.dst))
    && (w.pc.Copying? || w.pc.RestoreSrc? ==> SeenAsleep(w.src) && SeenAsleep(w.dst))
    && (w.pc.ClearDst? ==> w.dst.copy.hibernated)
    && (w.pc.ClearDst? ==> AfterSrc(w.pc.stage))
    && (w.pc.Expecting? ==> !Settled(w.dst.copy.phase))
    && (w.pc.Expecting? || w.pc.Poll? ==> w.pc.left <= POLLS)
    && (w.pc.Expecting? || w.pc.Flag? ==> w.src.copy.hibernated == w.oldFlag)
    && (w.pc.Poll? && w.pc.side.Dst? ==> w.src.copy.hibernated == w.oldFlag)
    && (w.pc.Expecting? || w.pc.Flag? || w.pc.Poll? ==> w.copied == 0)
    && ((w.pc.ClearDst? || w.pc.Finished?) && !w.pc.stage.Copied? ==> w.copied == 0)
  }

  ghost predicate WorldInv(plan: Plan, w: World) {
    SrcFits(plan, w) && DstFits(plan, w) && PcFits(w)
  }

  // ---------------------------------------------------------------- every move keeps it

  /** A module that nobody edits keeps its flag and is not deleted; if it is flagged and no wake-up
      was decided, none will be, and once asleep it stays so. */
  lemma QuietStep(cfg: Config, s: State, a: Action)
    requires Inv(cfg, s) && Live(s) && !a.SetHibernated? && !a.RequestDelete?
    ensures Live(Next(cfg, s, a)) && Next(cfg, s, a).obj.hibernated == s.obj.hibernated
    ensures s.obj.hibernated && !WakeDecided(s) ==>
              !WakeDecided(Next(cfg, s, a)) && (s.obj.phase.Sleeped? ==> Next(cfg, s, a).obj.phase.Sleeped?)
  {
    LiveStep(cfg, s, a);
    if s.obj.hibernated && !WakeDecided(s) {
      KeptAsleepStep(cfg, s, a);
    }
  }

  lemma LiveStep(cfg: Config, s: State, a: Action)
    requires Inv(cfg, s) && Live(s) && !a.SetHibernated? && !a.RequestDelete?
    ensures Live(Next(cfg, s, a)) && Next(cfg, s, a).obj.hibernated == s.obj.hibernated
  {
    hide Run, OriginOf, Own, AutoFits, OriginFits, HistoryFits;
  }

  lemma TrackedStep(cfg: Config, p: Party, raced: bool, a: Action)
    requires Tracked(cfg, p, raced) && !a.SetHibernated? && !a.RequestDelete?
    ensures Tracked(cfg, p.(mod := Next(cfg, p.mod, a)), raced)
  {
    hide Inv, Next;
    StepKeepsInv(cfg, p.mod, a);
    QuietStep(cfg, p.mod, a);
  }

  lemma FlaggedInv(cfg: Config, s: State, value: bool)
    requires Inv(cfg, s)
    ensures Inv(cfg, Flagged(s, value))
  {
    hide Inv;
    StepKeepsInv(cfg, s, SetHibernated(value));
  }

  /** Setting the flag through the API starts the tracking of a hibernated module. */
  lemma TrackedFlag(cfg: Config, p: Party, raced: bool)
    requires Tracked(cfg, p, raced)
    ensures var m := Flagged(p.mod, true); Tracked(cfg, Party(m, m.obj), raced || WakeDecided(p.mod))
  {
    hide Inv;
    FlaggedInv(cfg, p.mod, true);
  }

  lemma TrackedMore(cfg: Config, p: Party, raced: bool)
    requires Tracked(cfg, p, raced)
    ensures Tracked(cfg, p, true) && Tracked(cfg, p.(copy := p.mod.obj), raced)
  {
    hide Inv;
  }

  lemma NewcomerStep(cfg: Config, s: State, a: Action)
    requires Inv(cfg, s) && s.obj.stored && !s.obj.deleting && !a.SetHibernated? && !a.RequestDelete?
    ensures Next(cfg, s, a).obj.stored && !Next(cfg, s, a).obj.deleting
  {
    hide Run, OriginOf, Own, AutoFits, OriginFits, HistoryFits;
  }

  lemma SettledLive(cfg: Config, s: State)
    requires Inv(cfg, s) && s.obj.stored && !s.obj.deleting && (s.obj.phase.Ready? || s.obj.phase.Sleeped?)
    ensures Live(s)
  {
    hide Run, OriginOf, Own, AutoFits, OriginFits, HistoryFits;
  }

  /** Only an edit changes the flag. */
  lemma FlagKept(cfg: Config, s: State, a: Action)
    requires !a.SetHibernated?
    ensures Next(cfg, s, a).obj.hibernated == s.obj.hibernated
  {
  }

  lemma ModuleMove(plan: Plan, w: World, side: Side, a: Action)
    requires WorldInv(plan, w) && !Edit(Module(side, a))
    ensures WorldInv(plan, Step(plan, w, Module(side, a)))
  {
    hide Inv, Next, Tracked, Live;
    var cfg, p := CfgOf(plan, side), At(w, side);
    FlagKept(cfg, p.mod, a);
    if Tracked(cfg, p, w.raced) {
      TrackedStep(cfg, p, w.raced, a);
    }
    if side.Dst? && w.pc.Expecting? {
      NewcomerStep(cfg, p.mod, a);
      StepKeepsInv(cfg, p.mod, a);
    }
  }

  lemma ExpectMove(plan: Plan, w: World, readable: bool)
    requires WorldInv(plan, w) && w.pc.Expecting?
    ensures WorldInv(plan, Step(plan, w, Get(readable)))
  {
    hide Inv, Next;
    TrackedMore(plan.src, w.src, w.raced);
    if Settled(w.dst.mod.obj.phase) {
      SettledLive(plan.dst, w.dst.mod);
    }
  }

  lemma FlagMove(plan: Plan, w: World, o: Outcome)
    requires WorldInv(plan, w) && w.pc.Flag?
    ensures WorldInv(plan, Step(plan, w, Patch(o)))
  {
    hide Inv, Next, Tracked;
    var side := w.pc.side;
    var p, other := At(w, side), if side.Src? then Dst else Src;
    TrackedFlag(CfgOf(plan, side), p, w.raced);
    TrackedMore(CfgOf(plan, other), At(w, other), w.raced);
    TrackedFacts(plan.src, w.src, w.raced);
    TrackedFacts(plan.dst, w.dst, w.raced);
  }

  lemma TrackedFacts(cfg: Config, p: Party, raced: bool)
    requires Tracked(cfg, p, raced)
    ensures Live(p.mod) && p.copy.hibernated == p.mod.obj.hibernated
  {
  }

  lemma PollMove(plan: Plan, w: World, readable: bool)
    requires WorldInv(plan, w) && w.pc.Poll?
    ensures WorldInv(plan, Step(plan, w, Get(readable)))
  {
    hide Inv, Next, Tracked;
    var p, cfg := At(w, w.pc.side), CfgOf(plan, w.pc.side);
    TrackedMore(cfg, p, w.raced);
    TrackedFacts(cfg, p, w.raced);
    TrackedFacts(plan.src, w.src, w.raced);
  }

  lemma RestoreMove(plan: Plan, w: World, o: Outcome)
    requires WorldInv(plan, w) && (w.pc.RestoreSrc? || w.pc.ClearDst?)
    ensures WorldInv(plan, Step(plan, w, Patch(o)))
  {
    hide Inv, Next, Tracked;
    TrackedFacts(plan.dst, w.dst, w.raced);
    if w.pc.RestoreSrc? {
      TrackedFacts(plan.src, w.src, w.raced);
    }
  }

  lemma MoveKeepsInv(plan: Plan, w: World, m: Move)
    requires WorldInv(plan, w) && !Edit(m)
    ensures WorldInv(plan, Step(plan, w, m))
  {
    hide Inv, Next, Tracked;
    match m
    case Module(side, a) => ModuleMove(plan, w, side, a);
    case Patch(o) =>
      if w.pc.Flag? {
        FlagMove(plan, w, o);
      } else if w.pc.RestoreSrc? || w.pc.ClearDst? {
        RestoreMove(plan, w, o);
      }
    case Get(readable) =>
      if w.pc.Expecting? {
        ExpectMove(plan, w, readable);
      } else if w.pc.Poll? {
        PollMove(plan, w, readable);
      }
    case _ =>
  }

  lemma {:induction false} RunKeepsWorldInv(plan: Plan, w: World, run: seq<Move>)
    requires WorldInv(plan, w) && Unedited(run)
    ensures WorldInv(plan, Steps(plan, w, run))
  {
    hide WorldInv, Step;
    if run != [] {
      RunKeepsWorldInv(plan, w, run[..|run| - 1]);
      MoveKeepsInv(plan, Steps(plan, w, run[..|run| - 1]), run[|run| - 1]);
    }
  }

  lemma ForkedInv(plan: Plan, w: World)
    requires Forked(plan, w)
    ensures WorldInv(plan, w)
  {
    hide Inv;
  }

  // ---------------------------------------------------------------- what a migration guarantees

  /** Copying only happens after both modules were seen asleep and flagged; and unless a wake-up had
      been decided before, both really are asleep with no reconcile working on them, in every state
      of every unedited run in which copying goes on. */
  lemma QuietWhileCopying(plan: Plan, w0: World, run: seq<Move>)
    requires Forked(plan, w0) && Unedited(run)
    ensures var w := Steps(plan, w0, run);
            && (w.copied > 0 || w.pc.Copying? ==> w.pc.Copying? || w.pc.RestoreSrc? || w.pc.ClearDst? || w.pc.Finished?)
            && (w.pc.Copying? ==>
                  && SeenAsleep(w.src) && SeenAsleep(w.dst)
                  && (!w.raced ==> && w.src.mod.obj.phase.Sleeped? && w.src.mod.pc.Idle?
                                   && w.dst.mod.obj.phase.Sleeped? && w.dst.mod.pc.Idle?))
  {
    hide Inv;
    ForkedInv(plan, w0);
    RunKeepsWorldInv(plan, w0, run);
    var w := Steps(plan, w0, run);
    if w.pc.Copying? && !w.raced {
      SleepedPcs(plan.src, w.src.mod);
      SleepedPcs(plan.dst, w.dst.mod);
    }
  }

  /** How the flags end, in every unedited run: after copying, each restoring patch that landed has
      put the source's flag back and cleared the new module's.  If the source did not fall asleep its
      flag stays set; if the new module did not, nothing happened to the source. */
  lemma FlagsRestored(plan: Plan, w0: World, run: seq<Move>)
    requires Forked(plan, w0) && Unedited(run) && Steps(plan, w0, run).pc.Finished?
    ensures var w := Steps(plan, w0, run);
            var src, dst := w.src.mod.obj.hibernated, w.dst.mod.obj.hibernated;
            && (!w.pc.stage.Copied? ==> w.copied == 0)
            && match w.pc.stage
            case NeverSettled => src == w.oldFlag
            case Skipped => src == w.oldFlag
            case Unflagged(side) => if side.Dst? then src == w.oldFlag else w.missed || !dst
            case NotAsleep(side) => if side.Dst? then src == w.oldFlag else src && (w.missed || !dst)
            case Copied => w.missed || (src == w.oldFlag && !dst)
  {
    hide Inv;
    ForkedInv(plan, w0);
    RunKeepsWorldInv(plan, w0, run);
  }

  /** A world from which copying, once ended, never begins again. */
  ghost predicate Quiet(plan: Plan, w: World) {
    && (w.pc.Copying? || w.pc.RestoreSrc? || w.pc.ClearDst? || w.pc.Finished?)
    && (w.pc.Copying? ==>
          && Inv(plan.src, w.src.mod) && KeptAsleep(w.src.mod) && w.src.mod.obj.phase.Sleeped?
          && Inv(plan.dst, w.dst.mod) && KeptAsleep(w.dst.mod) && w.dst.mod.obj.phase.Sleeped?)
  }

  lemma QuietMove(plan: Plan, w: World, m: Move)
    requires Quiet(plan, w) && !Edit(m)
    ensures Quiet(plan, Step(plan, w, m))
  {
    hide Inv, Next;
    if m.Module? && w.pc.Copying? {
      var cfg, s := CfgOf(plan, m.side), At(w, m.side).mod;
      StepKeepsInv(cfg, s, m.a);
      KeptAsleepStep(cfg, s, m.a);
    }
  }

  lemma {:induction false} QuietRun(plan: Plan, w: World, run: seq<Move>)
    requires Quiet(plan, w) && Unedited(run)
    ensures Quiet(plan, Steps(plan, w, run))
  {
    hide Quiet, Step;
    if run != [] {
      QuietRun(plan, w, run[..|run| - 1]);
      QuietMove(plan, Steps(plan, w, run[..|run| - 1]), run[|run| - 1]);
    }
  }

  ghost predicate BothAsleep(w: World) {
    w.src.mod.obj.phase.Sleeped? && w.dst.mod.obj.phase.Sleeped?
  }

  /** Exactly when copying that begins on two sleeping modules is safe: both stay asleep as long as it
      goes on, in every unedited continuation, if and only if no reconcile of either is in flight. */
  lemma QuietIff(plan: Plan, w: World)
    requires WorldInv(plan, w) && w.pc.Copying? && BothAsleep(w)
    ensures (forall run | Unedited(run) && Steps(plan, w, run).pc.Copying? :: BothAsleep(Steps(plan, w, run)))
            <==> w.src.mod.pc.Idle? && w.dst.mod.pc.Idle?
  {
    SleepedPcs(plan.src, w.src.mod);
    SleepedPcs(plan.dst, w.dst.mod);
    if w.src.mod.pc.Idle? && w.dst.mod.pc.Idle? {
      forall run | Unedited(run) && Steps(plan, w, run).pc.Copying?
        ensures BothAsleep(Steps(plan, w, run))
      {
        QuietRun(plan, w, run);
      }
    } else {
      var run := [Module(if w.src.mod.pc.Idle? then Dst else Src, Write(Ok))];
      assert run[..0] == [] && Steps(plan, w, []) == w;
      assert Unedited(run) && Steps(plan, w, run).pc.Copying? && !BothAsleep(Steps(plan, w, run));
    }
  }

  /** The goroutine's own moves before and after copying are bounded: at most 180 polls in each of its
      three waits. */
  function Remaining(w: World): nat {
    match w.pc
    case Expecting(left) => left + 2 * POLLS + 10
    case Flag(side) => if side.Dst? then 2 * POLLS + 9 else POLLS + 6
    case Poll(side, left) => left + (if side.Dst? then POLLS + 7 else 4)
    case Copying => 3
    case RestoreSrc => 2
    case ClearDst(_) => 1
    case Finished(_) => 0
  }

  lemma EveryMoveCounts(plan: Plan, w: World, m: Move)
    requires PcFits(w) && !m.Module? && !m.CopyOne?
    ensures Step(plan, w, m) == w || Remaining(Step(plan, w, m)) < Remaining(w)
  {
    hide Next;
    if m.Get? && w.pc.Expecting? {
      ExpectCounts(plan, w, m.readable);
    } else if m.Get? && w.pc.Poll? {
      PollCounts(plan, w, m.readable);
    } else if m.Patch? {
      PatchCounts(plan, w, m.o);
    }
  }

  lemma ExpectCounts(plan: Plan, w: World, readable: bool)
    requires w.pc.Expecting?
    ensures Remaining(Step(plan, w, Get(readable))) < Remaining(w)
  {
    hide WakeDecided, Settled, ToMigrate;
  }

  lemma PollCounts(plan: Plan, w: World, readable: bool)
    requires w.pc.Poll?
    ensures Remaining(Step(plan, w, Get(readable))) < Remaining(w)
  {
    hide At, Put;
    PutKeepsPc(w, w.pc.side, At(w, w.pc.side).(copy := At(w, w.pc.side).mod.obj));
  }

  lemma PutKeepsPc(w: World, side: Side, p: Party)
    ensures Put(w, side, p).pc == w.pc
  {
  }

  lemma PatchCounts(plan: Plan, w: World, o: Outcome)
    ensures Step(plan, w, Patch(o)) == w || Remaining(Step(plan, w, Patch(o))) < Remaining(w)
  {
    hide WakeDecided, At, Flagged;
  }

  /** How many of the goroutine's own moves in a run did something, copying apart. */
  ghost function OwnMoves(plan: Plan, w: World, run: seq<Move>): nat {
    if run == [] then 0
    else
      var v, m := Steps(plan, w, run[..|run| - 1]), run[|run| - 1];
      OwnMoves(plan, w, run[..|run| - 1]) + if m.Module? || m.CopyOne? || Step(plan, v, m) == v then 0 else 1
  }

  lemma OthersKeepRemaining(plan: Plan, w: World, m: Move)
    requires m.Module? || m.CopyOne?
    ensures Remaining(Step(plan, w, m)) == Remaining(w)
  {
    hide Next;
  }

  /** So in every run the goroutine makes at most 550 of them. */
  lemma {:induction false} WaitsEnd(plan: Plan, w: World, run: seq<Move>)
    requires Forked(plan, w) && Unedited(run)
    ensures OwnMoves(plan, w, run) + Remaining(Steps(plan, w, run)) <= 3 * POLLS + 10
  {
    hide Step, WorldInv, Forked, Remaining;
    ForkedInv(plan, w);
    if run != [] {
      var u, m := run[..|run| - 1], run[|run| - 1];
      WaitsEnd(plan, w, u);
      RunKeepsWorldInv(plan, w, u);
      var v := Steps(plan, w, u);
      if m.Module? || m.CopyOne? {
        OthersKeepRemaining(plan, v, m);
      } else {
        PcFitsOf(plan, v);
        EveryMoveCounts(plan, v, m);
      }
    } else {
      AtStart(plan, w);
    }
  }

  lemma PcFitsOf(plan: Plan, w: World)
    requires WorldInv(plan, w)
    ensures PcFits(w)
  {
  }

  lemma AtStart(plan: Plan, w: World)
    requires Forked(plan, w)
    ensures Remaining(w) == 3 * POLLS + 10
  {
  }

  // ---------------------------------------------------------------- the waits

  lemma SkippedStep(plan: Plan, w: World, m: Move)
    requires plan.wanted && plan.src.helm && plan.volumes > 0
    requires w.pc != Finished(Skipped) && w.pc != ClearDst(Skipped)
    ensures var v := Step(plan, w, m); v.pc != Finished(Skipped) && v.pc != ClearDst(Skipped)
  {
    hide Next;
  }

  lemma {:induction false} NeverSkipped(plan: Plan, w: World, run: seq<Move>)
    requires Forked(plan, w) && plan.wanted && plan.src.helm && plan.volumes > 0
    ensures Steps(plan, w, run).pc != Finished(Skipped) && Steps(plan, w, run).pc != ClearDst(Skipped)
  {
    hide Inv, Step;
    if run != [] {
      NeverSkipped(plan, w, run[..|run| - 1]);
      SkippedStep(plan, Steps(plan, w, run[..|run| - 1]), run[|run| - 1]);
    }
  }

  /** In every run a migration is only skipped if it was not asked for, the source is no Helm module, or it
      lists no volume. */
  lemma SkippedOnlyIf(plan: Plan, w: World, run: seq<Move>)
    requires Forked(plan, w)
    ensures Steps(plan, w, run).pc == Finished(Skipped) ==> !plan.wanted || !plan.src.helm || plan.volumes == 0
  {
    hide Forked, Steps;
    if plan.wanted && plan.src.helm && plan.volumes > 0 {
      NeverSkipped(plan, w, run);
    }
  }

  /** Reads that fail do not end a wait before its hundred and eightieth round. */
  lemma {:induction false} WaitsFor180(plan: Plan, w: World, n: nat)
    requires n <= 180 && (w.pc == Expecting(180) || w.pc == Poll(Src, 180) || w.pc == Poll(Dst, 180))
    ensures Steps(plan, w, seq(n, i => Get(false)))
            == w.(pc := if w.pc.Expecting? then Expecting(180 - n) else Poll(w.pc.side, 180 - n))
  {
    var run := seq(n, i => Get(false));
    if n > 0 {
      assert run[..n - 1] == seq(n - 1, i => Get(false));
      WaitsFor180(plan, w, n - 1);
    }
  }

  /** What waiting starts with: 180 rounds each. */
  lemma WaitsStart(plan: Plan, w: World, o: Outcome)
    ensures Forked(plan, w) ==> w.pc == Expecting(180)
    ensures w.pc.Flag? && (At(w, w.pc.side).copy.hibernated || (o.Ok? && At(w, w.pc.side).mod.obj.stored)) ==>
              Step(plan, w, Patch(o)).pc == Poll(w.pc.side, 180)
  {
    hide Inv;
  }

  /** What a read decides: a module being hibernated is done waiting for when it is asleep, given up when
      it is uninstalling or failed, and waited for in every other phase. */
  lemma PollVerdict(plan: Plan, w: World, left: nat)
    requires w.pc.Poll? && w.pc.left == left + 1 && At(w, w.pc.side).mod.obj.stored
    ensures var side, phase := w.pc.side, At(w, w.pc.side).mod.obj.phase;
            var pc := Step(plan, w, Get(true)).pc;
            && (phase.Sleeped? <==> pc == if side.Src? then Copying else Flag(Src))
            && (phase.Uninstalling? || phase.Failed?
                <==> pc == if side.Src? then ClearDst(NotAsleep(Src)) else Finished(NotAsleep(Dst)))
            && (phase.Empty? || phase.Ready? || phase.Installing? || phase.Sleeping? || phase.Resuming?
                <==> pc == Poll(side, left))
  {
  }

  /** After the last round the copy decides: a module last seen asleep counts as asleep even if no read
      succeeded since. */
  lemma LastTest(plan: Plan, w: World, side: Side, readable: bool)
    requires w.pc == Poll(side, 0)
    ensures Step(plan, w, Get(readable)).pc
            == if At(w, side).copy.phase.Sleeped? then (if side.Src? then Copying else Flag(Src))
               else if side.Src? then ClearDst(NotAsleep(Src)) else Finished(NotAsleep(Dst))
  {
  }

  /** Likewise for the new module, which only has to be ready or asleep. */
  lemma ExpectVerdict(plan: Plan, w: World, left: nat)
    requires w.pc == Expecting(left + 1) && w.dst.mod.obj.stored
    ensures var phase, pc := w.dst.mod.obj.phase, Step(plan, w, Get(true)).pc;
            && (phase.Ready? || phase.Sleeped?
                <==> pc == if plan.wanted && plan.src.helm && plan.volumes > 0 then Flag(Dst) else Finished(Skipped))
            && (phase.Uninstalling? || phase.Failed? <==> pc == Finished(NeverSettled))
            && (phase.Empty? || phase.Installing? || phase.Sleeping? || phase.Resuming? <==> pc == Expecting(left))
  {
  }
}
