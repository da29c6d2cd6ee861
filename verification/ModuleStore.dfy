/** The modules of all workspaces, and what the workspace controller does to them as a group:
    the hibernation fan-out and the fork. */
module ModuleStore {
  import opened Common
  import opened ModuleSpecs
  import opened ModuleProtocol

  type Name = string

  /** `declared` stands for the module's configuration declarations. */
  datatype Record = Record(
    spec: ModuleSpec, declared: string, annotations: map<string, string>, phase: Phase)

  type Modules = map<Name, Record>

  predicate Related(ref: WorkspaceRef, r: Record) {
    r.spec.workspace == ref
  }

  function Flagged(r: Record, value: bool): Record {
    r.(spec := r.spec.(hibernated := value))
  }

  /** The hibernation flag of exactly the workspace's modules set to `value`. */
  ghost function SetFlags(ms: Modules, ref: WorkspaceRef, value: bool): Modules {
    map n | n in ms :: if Related(ref, ms[n]) then Flagged(ms[n], value) else ms[n]
  }

  ghost function SetFlagsOn(ms: Modules, names: set<Name>, value: bool): Modules {
    map n | n in ms :: if n in names then Flagged(ms[n], value) else ms[n]
  }

  function RelatedNames(ms: Modules, ref: WorkspaceRef): set<Name> {
    set n | n in ms && Related(ref, ms[n])
  }

  /** What a fork makes of a source module. */
  function ForkCopy(source: Record, dest: WorkspaceRef): Record {
    Record(
      ModuleSpec(
        if source.spec.helm.Some? then Some(source.spec.helm.value.(existing := None)) else None,
        source.spec.custom, dest, source.spec.config, source.spec.hibernated),
      source.declared, map[], Empty)
  }

  predicate Forkable(r: Record) {
    r.phase.Ready? || r.phase.Sleeped?
  }

  /** The API server, as the workspace controller uses it for modules.  When `reliable`, every call
      succeeds. */
  class Store {
    const reliable: bool
    var modules: Modules

    constructor (modules: Modules, reliable: bool)
      ensures this.modules == modules && this.reliable == reliable
    {
      this.modules, this.reliable := modules, reliable;
    }

    /** Lists the modules that refer to a workspace; the caller gets copies. */
    method List(ref: WorkspaceRef) returns (ok: bool, names: seq<Name>, copies: Modules)
      ensures reliable ==> ok
      ensures copies == modules && Elems(names) == RelatedNames(modules, ref) && Distinct(names)
      ensures forall n :: n in names <==> n in modules && modules[n].spec.workspace == ref
    {
      ok := *;
      ok := ok || reliable;
      copies, names := modules, [];
      var rest := RelatedNames(modules, ref);
      while rest != {}
        invariant Elems(names) + rest == RelatedNames(modules, ref)
        invariant Elems(names) !! rest && Distinct(names)
        decreases rest
      {
        var n :| n in rest;
        assert n !in Elems(names);
        names, rest := names + [n], rest - {n};
      }
      assert forall n :: n in names <==> n in Elems(names);
    }

    /** Sends the difference between a copy's flag and the wanted flag; equal flags make an empty
        patch, which changes nothing. */
    method PatchFlag(n: Name, from: bool, to: bool) returns (o: Outcome)
      modifies this`modules
      ensures reliable && n in old(modules) ==> o.Ok?
      ensures o.Landed() ==> n in old(modules)
      ensures modules == if o.Landed() && from != to then old(modules)[n := Flagged(old(modules)[n], to)]
                         else old(modules)
    {
      o := *;
      if n !in modules {
        o := Rejected;
      } else if reliable {
        o := Ok;
      }
      if o.Landed() && from != to {
        modules := modules[n := Flagged(modules[n], to)];
      }
    }

    /** Creates a module under a fresh name. */
    method Create(prefix: Name, r: Record) returns (o: Outcome, n: Name)
      modifies this`modules
      ensures reliable ==> o.Ok?
      ensures n !in old(modules) && prefix <= n
      ensures modules == if o.Landed() then old(modules)[n := r] else old(modules)
    {
      o := *;
      if reliable {
        o := Ok;
      }
      assert FreshName(modules.Keys, prefix) !in modules;
      n :| n !in modules && prefix <= n;
      if o.Landed() {
        modules := modules[n := r];
      }
    }

    /** Flags every module of the workspace for hibernation.  A patch that fails is only logged. */
    method SleepModules(ref: WorkspaceRef, alreadyHibernated: bool) returns (ok: bool, ghost hit: set<Name>)
      modifies this`modules
      ensures hit <= RelatedNames(old(modules), ref) && modules == SetFlagsOn(old(modules), hit, true)
      ensures alreadyHibernated || !ok ==> modules == old(modules)
      ensures reliable ==> ok
      ensures reliable && !alreadyHibernated ==> AllHit(old(modules), ref, hit, true)
      ensures reliable && !alreadyHibernated ==> modules == SetFlags(old(modules), ref, true)
      ensures reliable && !alreadyHibernated ==> OnlyFlagged(old(modules), ref, true, modules)
    {
      hit := {};
      assert modules == SetFlagsOn(modules, {}, true);
      if alreadyHibernated {
        return true, hit;
      }
      var names, copies;
      ok, names, copies := List(ref);
      if !ok {
        return;
      }
      for i := 0 to |names|
        invariant hit <= Elems(names[..i]) && modules == SetFlagsOn(copies, hit, true)
        invariant reliable ==> forall n | n in Elems(names[..i]) ::
                    n in copies && (n in hit || copies[n].spec.hibernated)
      {
        var n := names[i];
        ElemsStep(names, i);
        assert n in RelatedNames(copies, ref) by {
          assert n in Elems(names);
        }
        if !copies[n].spec.hibernated {
          var o := PatchFlag(n, false, true);
          FlagStep(copies, hit, n, true);
          if o.Landed() {
            hit := hit + {n};
          }
        }
      }
      assert names[..|names|] == names;
      if reliable {
        AllFlagged(copies, ref, hit, true);
        FlagsSet(copies, ref, true);
      }
    }

    /** As written: the guard tests the copy's flag the wrong way round, so the only patches sent are
        empty and no flag ever changes. */
    method ResumeModules(ref: WorkspaceRef, alreadyAwake: bool) returns (ok: bool)
      modifies this`modules
      ensures modules == old(modules) && (reliable ==> ok)
    {
      if alreadyAwake {
        return true;
      }
      var names, copies;
      ok, names, copies := List(ref);
      if !ok {
        return;
      }
      for i := 0 to |names|
        invariant modules == copies
      {
        var n := names[i];
        assert n in RelatedNames(copies, ref) by {
          assert n in Elems(names);
        }
        if !copies[n].spec.hibernated {
          var o := PatchFlag(n, false, false);
        }
      }
    }

    /** With the guard corrected. */
    method ResumeModulesRepaired(ref: WorkspaceRef, alreadyAwake: bool) returns (ok: bool, ghost hit: set<Name>)
      modifies this`modules
      ensures hit <= RelatedNames(old(modules), ref) && modules == SetFlagsOn(old(modules), hit, false)
      ensures alreadyAwake || !ok ==> modules == old(modules)
      ensures reliable ==> ok
      ensures reliable && !alreadyAwake ==> modules == SetFlags(old(modules), ref, false)
      ensures reliable && !alreadyAwake ==> OnlyFlagged(old(modules), ref, false, modules)
    {
      hit := {};
      assert modules == SetFlagsOn(modules, {}, false);
      if alreadyAwake {
        return true, hit;
      }
      var names, copies;
      ok, names, copies := List(ref);
      if !ok {
        return;
      }
      for i := 0 to |names|
        invariant hit <= Elems(names[..i]) && modules == SetFlagsOn(copies, hit, false)
        invariant reliable ==> forall n | n in Elems(names[..i]) ::
                    n in copies && (n in hit || !copies[n].spec.hibernated)
      {
        var n := names[i];
        ElemsStep(names, i);
        assert n in RelatedNames(copies, ref) by {
          assert n in Elems(names);
        }
        if copies[n].spec.hibernated {
          var o := PatchFlag(n, true, false);
          FlagStep(copies, hit, n, false);
          if o.Landed() {
            hit := hit + {n};
          }
        }
      }
      assert names[..|names|] == names;
      if reliable {
        AllFlagged(copies, ref, hit, false);
        FlagsSet(copies, ref, false);
      }
    }

    /** Checks the modules of `source` and drafts a copy of each for `dest`, or nothing unless all of them
        are ready or asleep.  Creating the copies is left to one goroutine per draft. */
    method Fork(source: WorkspaceRef, dest: WorkspaceRef) returns (ok: bool, drafts: seq<Draft>)
      ensures ForkPlan(modules, source, dest, ok, drafts)
      ensures reliable ==> (ok <==> forall n | n in RelatedNames(modules, source) :: Forkable(modules[n]))
      ensures ok ==> forall n | n in modules && modules[n].spec.workspace == source ::
                modules[n].phase.Ready? || modules[n].phase.Sleeped?
      ensures ok ==> forall n :: n in Sources(drafts) <==> n in modules && modules[n].spec.workspace == source
    {
      drafts := [];
      var names, copies;
      ok, names, copies := List(source);
      if !ok {
        return;
      }
      for i := 0 to |names|
        invariant forall n | n in Elems(names[..i]) :: n in copies && Forkable(copies[n])
      {
        ElemsStep(names, i);
        assert names[i] in RelatedNames(copies, source);
        if !Forkable(copies[names[i]]) {
          return false, [];
        }
      }
      assert names[..|names|] == names;
      for i := 0 to |names|
        invariant |drafts| == i
        invariant forall j | 0 <= j < i ::
                    names[j] in copies && drafts[j] == Draft(names[j], ForkCopy(copies[names[j]], dest))
      {
        ElemsStep(names, i);
        assert names[i] in RelatedNames(copies, source);
        drafts := drafts + [Draft(names[i], ForkCopy(copies[names[i]], dest))];
      }
      DraftsCover(names, drafts);
      assert forall i | 0 <= i < |names| :: names[i] in Elems(names);
    }
  }

  /** A copy that a goroutine of a fork is to create. */
  datatype Draft = Draft(source: Name, copy: Record)

  ghost function Sources(drafts: seq<Draft>): set<Name> {
    set i | 0 <= i < |drafts| :: drafts[i].source
  }

  /** The drafts are copies of distinct modules of the source. */
  ghost predicate AreCopies(ms: Modules, source: WorkspaceRef, dest: WorkspaceRef, drafts: seq<Draft>) {
    && (forall i | 0 <= i < |drafts| ::
          drafts[i].source in RelatedNames(ms, source) && drafts[i].copy == ForkCopy(ms[drafts[i].source], dest))
    && (forall i, j | 0 <= i < j < |drafts| :: drafts[i].source != drafts[j].source)
  }

  /** What a fork can answer: a draft for each source module, all of which are ready or asleep, or none. */
  ghost predicate ForkPlan(ms: Modules, source: WorkspaceRef, dest: WorkspaceRef, ok: bool, drafts: seq<Draft>) {
    && AreCopies(ms, source, dest, drafts)
    && (if ok then
          Sources(drafts) == RelatedNames(ms, source) && forall n | n in RelatedNames(ms, source) :: Forkable(ms[n])
        else drafts == [])
  }

  lemma DraftsCover(names: seq<Name>, drafts: seq<Draft>)
    requires |drafts| == |names| && forall i | 0 <= i < |names| :: drafts[i].source == names[i]
    ensures Sources(drafts) == Elems(names)
  {
    forall n | n in names
      ensures n in Sources(drafts)
    {
      var i :| 0 <= i < |names| && names[i] == n;
      assert drafts[i].source == n;
    }
  }

  /** Some extension of a prefix is not in use: the API server completes generated names. */
  function FreshName(used: set<Name>, prefix: Name): (n: Name)
    ensures n !in used && prefix <= n
    decreases used
  {
    if prefix !in used then prefix else FreshName(used - {prefix}, prefix + "x")
  }

  lemma FlagStep(ms: Modules, hit: set<Name>, n: Name, value: bool)
    requires n in ms
    ensures n in SetFlagsOn(ms, hit, value)
    ensures SetFlagsOn(ms, hit + {n}, value) == SetFlagsOn(ms, hit, value)[n := Flagged(ms[n], value)]
    ensures Flagged(SetFlagsOn(ms, hit, value)[n], value) == Flagged(ms[n], value)
  {
  }

  /** Every related module was touched or has the wanted flag. */
  ghost predicate AllHit(ms: Modules, ref: WorkspaceRef, hit: set<Name>, value: bool) {
    forall n | n in RelatedNames(ms, ref) :: n in hit || ms[n].spec.hibernated == value
  }

  /** Touching the related modules whose flag differs sets the flag of all related modules. */
  lemma AllFlagged(ms: Modules, ref: WorkspaceRef, hit: set<Name>, value: bool)
    requires hit <= RelatedNames(ms, ref) && AllHit(ms, ref, hit, value)
    ensures SetFlagsOn(ms, hit, value) == SetFlags(ms, ref, value)
  {
    assert forall n | n in ms && Related(ref, ms[n]) :: n in RelatedNames(ms, ref);
    assert forall n | n in ms && ms[n].spec.hibernated == value :: Flagged(ms[n], value) == ms[n];
  }

  // ---------------------------------------------------------------- hibernate, then resume

  /** Between the two stores the flag of exactly the modules that refer to the workspace was set, and
      nothing else changed. */
  ghost predicate OnlyFlagged(ms: Modules, ref: WorkspaceRef, value: bool, ms': Modules) {
    && ms'.Keys == ms.Keys
    && (forall n | n in ms && ms[n].spec.workspace == ref ::
          ms'[n] == ms[n].(spec := ms[n].spec.(hibernated := value)))
    && (forall n | n in ms && ms[n].spec.workspace != ref :: ms'[n] == ms[n])
  }

  lemma FlagsSet(ms: Modules, ref: WorkspaceRef, value: bool)
    ensures OnlyFlagged(ms, ref, value, SetFlags(ms, ref, value))
  {
  }

  lemma RelatedIs(ms: Modules, ref: WorkspaceRef, n: Name)
    ensures n in RelatedNames(ms, ref) <==> n in ms && ms[n].spec.workspace == ref
  {
  }

  /** Setting flags leaves the other modules, and everything but the flag, alone. */
  lemma SetFlagsFrame(ms: Modules, ref: WorkspaceRef, value: bool, n: Name)
    requires n in ms
    ensures var ms' := SetFlags(ms, ref, value);
            && ms'.Keys == ms.Keys && RelatedNames(ms', ref) == RelatedNames(ms, ref)
            && ms'[n].(spec := ms'[n].spec.(hibernated := ms[n].spec.hibernated)) == ms[n]
            && (ms[n].spec.workspace != ref ==> ms'[n] == ms[n])
            && (ms[n].spec.workspace == ref ==> ms'[n].spec.hibernated == value)
  {
  }

  /** The two passes of a workspace that hibernates and resumes: what the modules look like at the
      end, with the resume pass as written (which leaves `asleep` alone) and with its guard
      corrected (which clears the flags of `asleep`).  As written the modules are back where they
      were exactly when all of them were hibernated to begin with; corrected, exactly when none was. */
  lemma HibernateThenResume(ms: Modules, ref: WorkspaceRef)
    ensures var asleep := SetFlags(ms, ref, true);
            && OnlyFlagged(ms, ref, true, asleep) && OnlyFlagged(ms, ref, false, SetFlags(asleep, ref, false))
            && (asleep == ms <==> forall n | n in ms && ms[n].spec.workspace == ref :: ms[n].spec.hibernated)
            && (SetFlags(asleep, ref, false) == ms
                <==> forall n | n in ms && ms[n].spec.workspace == ref :: !ms[n].spec.hibernated)
  {
    BackIff(ms, ref, true);
    BackIff(ms, ref, false);
    assert SetFlags(SetFlags(ms, ref, true), ref, false) == SetFlags(ms, ref, false);
    assert forall n :: n in RelatedNames(ms, ref) <==> n in ms && ms[n].spec.workspace == ref;
  }

  lemma BackIff(ms: Modules, ref: WorkspaceRef, value: bool)
    ensures SetFlags(ms, ref, value) == ms <==> forall n | n in RelatedNames(ms, ref) :: ms[n].spec.hibernated == value
  {
    if forall n | n in RelatedNames(ms, ref) :: ms[n].spec.hibernated == value {
      assert SetFlagsOn(ms, {}, value) == ms;
      AllFlagged(ms, ref, {}, value);
    }
    if SetFlags(ms, ref, value) == ms {
      forall n | n in RelatedNames(ms, ref)
        ensures ms[n].spec.hibernated == value
      {
        assert SetFlags(ms, ref, value)[n] == Flagged(ms[n], value);
      }
    }
  }
}
