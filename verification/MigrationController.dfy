/** The migrating goroutine as code.  The modules it works on live on as runs of the module protocol,
    which has no executable form, so all of this is ghost code; the log makes each execution a run of
    the migration protocol. */
module MigrationController {
  import opened Common
  import opened ModuleProtocol
  import opened DataMigration

  lemma FlagIs(plan: Plan, w: World, side: Side, o: Outcome)
    requires w.pc == Flag(side)
    ensures Step(plan, w, Patch(o)) == DoFlag(w, side, o)
  {
    hide DoFlag;
  }

  lemma PollIs(plan: Plan, w: World, readable: bool)
    requires w.pc.Poll?
    ensures Step(plan, w, Get(readable)) == DoPoll(w, w.pc.side, w.pc.left, readable)
  {
    hide DoPoll;
  }

  lemma ExpectIs(plan: Plan, w: World, readable: bool)
    requires w.pc.Expecting?
    ensures Step(plan, w, Get(readable)) == DoExpect(plan, w, w.pc.left, readable)
  {
    hide DoExpect;
  }

  lemma RestoreIs(plan: Plan, w: World, side: Side, o: Outcome)
    requires if side.Src? then w.pc.RestoreSrc? else w.pc.ClearDst?
    ensures Step(plan, w, Patch(o))
            == DoRestore(w, side, side.Src? && w.oldFlag, o,
                         if side.Src? then ClearDst(Copied) else Finished(w.pc.stage))
  {
    hide DoRestore;
  }

  class Migrator {
    const plan: Plan
    const oldFlag: bool
    ghost var src: Party
    ghost var dst: Party

    ghost const start: World
    ghost var log: seq<Move>
    ghost var pc: MPc
    ghost var copied: nat
    ghost var raced: bool
    ghost var missed: bool

    ghost function Snapshot(): World
      reads this
    {
      World(src, dst, oldFlag, pc, copied, raced, missed)
    }

    /** No one else edits the two modules. */
    ghost predicate Valid()
      reads this
    {
      Forked(plan, start) && Unedited(log) && Snapshot() == Steps(plan, start, log)
    }

    /** The source has been listed and the new module created. */
    ghost constructor (plan: Plan, source: State, dest: State)
      requires Forked(plan, World(Party(source, source.obj), Party(dest, dest.obj), source.obj.hibernated,
                                  Expecting(POLLS), 0,
                                  source.obj.hibernated && WakeDecided(source), false))
      ensures Valid() && this.plan == plan && pc == Expecting(POLLS) && oldFlag == source.obj.hibernated
    {
      this.plan, this.oldFlag := plan, source.obj.hibernated;
      this.src, this.dst := Party(source, source.obj), Party(dest, dest.obj);
      this.log, this.pc, this.copied, this.missed := [], Expecting(POLLS), 0, false;
      this.raced := source.obj.hibernated && WakeDecided(source);
      this.start := World(Party(source, source.obj), Party(dest, dest.obj), source.obj.hibernated, Expecting(POLLS), 0,
                          source.obj.hibernated && WakeDecided(source), false);
    }

    ghost method Log(before: World, m: Move)
      requires Forked(plan, start) && Unedited(log) && before == Steps(plan, start, log)
      requires !Edit(m) && Snapshot() == Step(plan, before, m)
      modifies this`log
      ensures Valid() && log == old(log) + [m]
    {
      hide Step, Forked;
      assert (log + [m])[..|log|] == log;
      log := log + [m];
    }

    /** The two modules' reconciles, time and the rest of the cluster go on. */
    ghost method Interfere()
      requires Valid()
      modifies this`src, this`dst, this`log
      ensures Valid() && old(log) <= log && src.copy == old(src.copy) && dst.copy == old(dst.copy)
    {
      hide Valid;
      var rounds: nat := *;
      while rounds > 0
        invariant Valid() && old(log) <= log && src.copy == old(src.copy) && dst.copy == old(dst.copy)
      {
        InterfereOnce();
        rounds := rounds - 1;
      }
    }

    ghost method InterfereOnce()
      requires Valid()
      modifies this`src, this`dst, this`log
      ensures Valid() && old(log) <= log && src.copy == old(src.copy) && dst.copy == old(dst.copy)
    {
      hide Steps, Forked, Next;
      var towardSource: bool := *;
      var side := if towardSource then Src else Dst;
      var a: Action := *;
      if !Edit(Module(side, a)) {
        var before := Snapshot();
        if side.Src? {
          src := src.(mod := Next(plan.src, src.mod, a));
        } else {
          dst := dst.(mod := Next(plan.dst, dst.mod, a));
        }
        Log(before, Module(side, a));
      }
    }

    ghost function Copy(side: Side): Object
      reads this
    {
      if side.Src? then src.copy else dst.copy
    }

    ghost method Save(side: Side, p: Party)
      modifies this`src, this`dst
      ensures src == (if side.Src? then p else old(src)) && dst == if side.Dst? then p else old(dst)
    {
      if side.Src? {
        src := p;
      } else {
        dst := p;
      }
    }

    /** Sets the flag of a module whose copy says it is not set; the answer refreshes the copy. */
    ghost method PatchHibernated(side: Side) returns (ok: bool)
      requires Valid() && pc == Flag(side) && !Copy(side).hibernated
      modifies this
      ensures Valid() && old(log) <= log && pc == if ok then Poll(side, POLLS) else Fail(side, Unflagged(side))
    {
      hide Valid;
      Interfere();
      ok := PatchNow(side);
    }

    /** The patch itself. */
    ghost method PatchNow(side: Side) returns (ok: bool)
      requires Valid() && pc == Flag(side) && !Copy(side).hibernated
      modifies this
      ensures Valid() && old(log) <= log && pc == if ok then Poll(side, POLLS) else Fail(side, Unflagged(side))
    {
      hide Step, Steps, Forked;
      var before := Snapshot();
      var o: Outcome := *;
      var p := At(before, side);
      if p.mod.obj.stored && o.Landed() {
        var m := Flagged(p.mod, true);
        Save(side, Party(m, m.obj));
        raced := raced || WakeDecided(p.mod);
      }
      ok := p.mod.obj.stored && o.Ok?;
      pc := if ok then Poll(side, POLLS) else Fail(side, Unflagged(side));
      FlagIs(plan, before, side, o);
      Log(before, Patch(o));
    }

    ghost method SkipPatch(side: Side)
      requires Valid() && pc == Flag(side) && Copy(side).hibernated
      modifies this`pc, this`log
      ensures Valid() && old(log) <= log && pc == Poll(side, POLLS)
    {
      hide Step, Steps, Forked;
      var before := Snapshot();
      pc := Poll(side, POLLS);
      FlagIs(plan, before, side, Ok);
      Log(before, Patch(Ok));
    }

    /** Reads a module into the copy. */
    ghost method Read(side: Side) returns (ok: bool)
      requires Valid() && pc.Poll? && pc.side == side && pc.left > 0
      modifies this
      ensures Valid() && old(log) <= log
      ensures pc == if ok then AfterPoll(side, Copy(side).phase, old(pc).left - 1) else Poll(side, old(pc).left - 1)
    {
      hide Valid, AfterPoll;
      Interfere();
      ok := GetNow(side);
    }

    /** The read itself. */
    ghost method GetNow(side: Side) returns (ok: bool)
      requires Valid() && pc.Poll? && pc.side == side && pc.left > 0
      modifies this
      ensures Valid() && old(log) <= log
      ensures pc == if ok then AfterPoll(side, Copy(side).phase, old(pc).left - 1) else Poll(side, old(pc).left - 1)
    {
      hide Step, Steps, Forked;
      var before := Snapshot();
      var readable: bool := *;
      var p := At(before, side);
      ok := readable && p.mod.obj.stored;
      if ok {
        Save(side, p.(copy := p.mod.obj));
      }
      pc := if ok then AfterPoll(side, p.mod.obj.phase, pc.left - 1) else Poll(side, pc.left - 1);
      PollIs(plan, before, readable);
      Log(before, Get(readable));
    }

    /** Flags a module and polls it up to 180 times until it is asleep. */
    ghost method HibernateModuleAndWait(side: Side) returns (ok: bool)
      requires Valid() && pc == Flag(side)
      modifies this
      ensures Valid() && old(log) <= log
      ensures if ok then pc == AsleepPc(side)
              else pc == Fail(side, Unflagged(side)) || pc == Fail(side, NotAsleep(side))
    {
      hide Valid;
      if !Copy(side).hibernated {
        ok := PatchHibernated(side);
        if !ok {
          return;
        }
      } else {
        SkipPatch(side);
      }
      for i := 0 to POLLS
        invariant Valid() && old(log) <= log && pc == Poll(side, POLLS - i)
      {
        var found := Read(side);
        if found {
          match Copy(side).phase
          case Sleeped => return true;
          case Uninstalling => return false;
          case Failed => return false;
          case _ =>
        }
      }
      ok := Copy(side).phase.Sleeped?;
      GiveUp(side);
    }

    /** The test after the last round. */
    ghost method GiveUp(side: Side)
      requires Valid() && pc == Poll(side, 0)
      modifies this`pc, this`log
      ensures Valid() && old(log) <= log
      ensures pc == if Copy(side).phase.Sleeped? then AsleepPc(side) else Fail(side, NotAsleep(side))
    {
      hide Step, Steps, Forked;
      var before := Snapshot();
      pc := if Copy(side).phase.Sleeped? then AsleepPc(side) else Fail(side, NotAsleep(side));
      PollIs(plan, before, true);
      Log(before, Get(true));
    }

    /** The deferred patches: the source's flag, if it differs, and the new module's. */
    ghost method RestoreFlag(side: Side, value: bool)
      requires Valid() && (if side.Src? then pc.RestoreSrc? && value == oldFlag else pc.ClearDst? && !value)
      modifies this
      ensures Valid() && old(log) <= log
      ensures pc == if side.Src? then ClearDst(Copied) else Finished(old(pc).stage)
    {
      hide Valid;
      Interfere();
      RestoreNow(side, value);
    }

    /** The patch itself. */
    ghost method RestoreNow(side: Side, value: bool)
      requires Valid() && (if side.Src? then pc.RestoreSrc? && value == oldFlag else pc.ClearDst? && !value)
      modifies this
      ensures Valid() && old(log) <= log
      ensures pc == if side.Src? then ClearDst(Copied) else Finished(old(pc).stage)
    {
      hide Step, Steps, Forked;
      var before := Snapshot();
      var o: Outcome := *;
      var p := At(before, side);
      if p.copy.hibernated != value {
        if o.Landed() {
          Save(side, p.(mod := Flagged(p.mod, value)));
        } else {
          missed := true;
        }
      }
      pc := if side.Src? then ClearDst(Copied) else Finished(pc.stage);
      RestoreIs(plan, before, side, o);
      Log(before, Patch(o));
    }

    /** Copies volumes, Secrets and ConfigMaps, in any number of steps, until done or failed. */
    ghost method CopyData()
      requires Valid() && pc.Copying?
      modifies this
      ensures Valid() && old(log) <= log && pc.RestoreSrc?
    {
      hide Valid;
      var rounds: nat := *;
      while rounds > 0
        invariant Valid() && old(log) <= log && pc.Copying?
      {
        CopyStep();
        rounds := rounds - 1;
      }
      Interfere();
      LeaveCopying();
    }

    /** While one object is copied both modules sleep, unless a wake-up had already been decided. */
    ghost method CopyStep()
      requires Valid() && pc.Copying?
      modifies this
      ensures Valid() && old(log) <= log && pc.Copying?
      ensures !raced ==> src.mod.obj.phase.Sleeped? && dst.mod.obj.phase.Sleeped?
      ensures !raced ==> src.mod.pc.Idle? && dst.mod.pc.Idle?
    {
      Interfere();
      hide Steps, Forked;
      var before := Snapshot();
      copied := copied + 1;
      Log(before, CopyOne);
      QuietWhileCopying(plan, start, log);
    }

    ghost method LeaveCopying()
      requires Valid() && pc.Copying?
      modifies this`pc, this`log
      ensures Valid() && old(log) <= log && pc.RestoreSrc?
    {
      hide Steps, Forked;
      var before := Snapshot();
      pc := RestoreSrc;
      Log(before, EndCopy);
    }

    /** Reads the new module into the copy. */
    ghost method ReadNew() returns (ok: bool)
      requires Valid() && pc.Expecting? && pc.left > 0
      modifies this
      ensures Valid() && old(log) <= log
      ensures pc == if !ok then Expecting(old(pc).left - 1)
                    else if Settled(dst.copy.phase) then LaunchPc(plan)
                    else if dst.copy.phase.Uninstalling? || dst.copy.phase.Failed? then Finished(NeverSettled)
                    else Expecting(old(pc).left - 1)
    {
      hide Valid, LaunchPc;
      Interfere();
      ok := GetNew();
    }

    /** The read itself. */
    ghost method GetNew() returns (ok: bool)
      requires Valid() && pc.Expecting? && pc.left > 0
      modifies this
      ensures Valid() && old(log) <= log
      ensures pc == if !ok then Expecting(old(pc).left - 1)
                    else if Settled(dst.copy.phase) then LaunchPc(plan)
                    else if dst.copy.phase.Uninstalling? || dst.copy.phase.Failed? then Finished(NeverSettled)
                    else Expecting(old(pc).left - 1)
    {
      hide Step, Steps, Forked;
      var before := Snapshot();
      var readable: bool := *;
      ok := readable && dst.mod.obj.stored;
      if ok {
        dst := dst.(copy := dst.mod.obj);
        raced := raced || (Settled(dst.copy.phase) && dst.copy.hibernated && WakeDecided(dst.mod));
        pc := if Settled(dst.copy.phase) then LaunchPc(plan)
              else if dst.copy.phase.Uninstalling? || dst.copy.phase.Failed? then Finished(NeverSettled)
              else Expecting(pc.left - 1);
      } else {
        pc := Expecting(pc.left - 1);
      }
      ExpectIs(plan, before, readable);
      Log(before, Get(readable));
    }

    /** The test after the last round. */
    ghost method GiveUpNew()
      requires Valid() && pc == Expecting(0)
      modifies this`pc, this`log
      ensures Valid() && old(log) <= log
      ensures pc == if Settled(dst.copy.phase) then LaunchPc(plan) else Finished(NeverSettled)
    {
      hide Step, Steps, Forked;
      var before := Snapshot();
      pc := if Settled(dst.copy.phase) then LaunchPc(plan) else Finished(NeverSettled);
      ExpectIs(plan, before, true);
      Log(before, Get(true));
    }

    /** Polls the new module up to 180 times until it is ready or asleep. */
    ghost method Await() returns (settled: bool)
      requires Valid() && pc == Expecting(POLLS)
      modifies this
      ensures Valid() && old(log) <= log
      ensures pc == if settled then LaunchPc(plan) else Finished(NeverSettled)
    {
      hide Valid;
      for i := 0 to POLLS
        invariant Valid() && old(log) <= log && pc == Expecting(POLLS - i)
      {
        var found := ReadNew();
        if found {
          match dst.copy.phase
          case Ready => return true;
          case Sleeped => return true;
          case Uninstalling => return false;
          case Failed => return false;
          case _ =>
        }
      }
      settled := dst.copy.phase.Ready? || dst.copy.phase.Sleeped?;
      GiveUpNew();
    }

    /** One goroutine of a fork, from waiting for the new module to the last deferred patch. */
    ghost method MigrateModuleData() returns (stage: Stage)
      requires Valid() && pc == Expecting(POLLS)
      modifies this
      ensures Valid() && old(log) <= log && pc == Finished(stage)
      ensures stage.Copied? && !missed ==> src.mod.obj.hibernated == oldFlag && !dst.mod.obj.hibernated
      ensures stage == NotAsleep(Src) ==> src.mod.obj.hibernated
      ensures copied > 0 ==> stage.Copied?
      ensures stage.Skipped? ==> !plan.wanted || !plan.src.helm || plan.volumes == 0
    {
      stage := MigrateOnce();
      FlagsRestored(plan, start, log);
      SkippedOnlyIf(plan, start, log);
    }

    ghost method MigrateOnce() returns (stage: Stage)
      requires Valid() && pc == Expecting(POLLS)
      modifies this
      ensures Valid() && old(log) <= log && pc == Finished(stage)
    {
      hide Valid;
      var ok := Await();
      if !ok {
        return NeverSettled;
      }
      if !plan.wanted || !plan.src.helm || plan.volumes == 0 {
        return Skipped;
      }
      ok := HibernateModuleAndWait(Dst);
      if !ok {
        return pc.stage;
      }
      ok := HibernateModuleAndWait(Src);
      if ok {
        CopyData();
        RestoreFlag(Src, oldFlag);
      }
      stage := pc.stage;
      RestoreFlag(Dst, false);
    }
  }
}
