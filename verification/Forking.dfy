/** What becomes of a fork: its goroutines create the drafted copies one by one, in any order, each
    create possibly failing, until the operator crashes or all are done. */
module Forking {
  import opened Common
  import opened ModuleSpecs
  import opened ModuleStore

  /** `drafts` are the goroutines that have not tried yet.  History variables: the modules as the fork
      listed them, the copies created so far with the modules they were made from, and the source modules whose copy was
      not created. */
  datatype Progress = Progress(listed: Modules, drafts: seq<Draft>, born: seq<Birth>, dropped: set<Name>)

  /** A copy was created under a name (which may be reused once the copy is deleted). */
  datatype Birth = Birth(name: Name, source: Name)

  const NOTHING := Progress(map[], [], [], {})

  function Planned(ms: Modules, drafts: seq<Draft>): Progress {
    Progress(ms, drafts, [], {})
  }

  function Others(drafts: seq<Draft>, i: nat): seq<Draft>
    requires i < |drafts|
  {
    drafts[..i] + drafts[i + 1..]
  }

  /** Goroutine `i` has sent its create request; if it landed, the copy is called `n`. */
  function Spawned(f: Progress, i: nat, landed: bool, n: Name): Progress
    requires i < |f.drafts|
  {
    var source := f.drafts[i].source;
    f.(drafts := Others(f.drafts, i),
       born := if landed then f.born + [Birth(n, source)] else f.born,
       dropped := if landed then f.dropped else f.dropped + {source})
  }

  /** A crash ends all goroutines. */
  ghost function Abandoned(f: Progress): Progress {
    f.(drafts := [], dropped := f.dropped + Sources(f.drafts))
  }

  ghost function Parents(born: seq<Birth>): set<Name> {
    set i | 0 <= i < |born| :: born[i].source
  }

  /** At any time every source module is exactly one of: drafted, copied once, or dropped. */
  ghost predicate Conserved(f: Progress, source: WorkspaceRef) {
    && Sources(f.drafts) + Parents(f.born) + f.dropped == RelatedNames(f.listed, source)
    && Sources(f.drafts) !! Parents(f.born) && Sources(f.drafts) !! f.dropped && Parents(f.born) !! f.dropped
    && (forall i, j | 0 <= i < j < |f.born| :: f.born[i].source != f.born[j].source)
  }

  ghost predicate Fit(f: Progress, source: WorkspaceRef, dest: WorkspaceRef) {
    && AreCopies(f.listed, source, dest, f.drafts) && Conserved(f, source)
    && (forall n | n in RelatedNames(f.listed, source) :: Forkable(f.listed[n]))
  }

  lemma NothingFits(source: WorkspaceRef, dest: WorkspaceRef)
    ensures Fit(NOTHING, source, dest)
  {
    assert Sources([]) == {} && Parents([]) == {};
  }

  lemma PlannedFits(ms: Modules, source: WorkspaceRef, dest: WorkspaceRef, drafts: seq<Draft>)
    requires ForkPlan(ms, source, dest, true, drafts)
    ensures Fit(Planned(ms, drafts), source, dest)
  {
    assert Parents([]) == {};
  }

  lemma SourcesOfOthers(drafts: seq<Draft>, i: nat)
    requires i < |drafts| && forall j, k | 0 <= j < k < |drafts| :: drafts[j].source != drafts[k].source
    ensures Sources(Others(drafts, i)) == Sources(drafts) - {drafts[i].source} && drafts[i].source in Sources(drafts)
  {
    var rest := Others(drafts, i);
    forall j | 0 <= j < |drafts| && j != i
      ensures drafts[j].source in Sources(rest) && drafts[j].source != drafts[i].source
    {
      var k := if j < i then j else j - 1;
      assert rest[k] == drafts[j];
    }
    forall k | 0 <= k < |rest|
      ensures rest[k].source in Sources(drafts) && rest[k].source != drafts[i].source
    {
      var j := if k < i then k else k + 1;
      assert rest[k] == drafts[j];
    }
  }

  lemma CopiesOfOthers(ms: Modules, source: WorkspaceRef, dest: WorkspaceRef, drafts: seq<Draft>, i: nat)
    requires i < |drafts| && AreCopies(ms, source, dest, drafts)
    ensures AreCopies(ms, source, dest, Others(drafts, i))
  {
    hide RelatedNames, ForkCopy;
    var rest := Others(drafts, i);
    assert forall k | 0 <= k < |rest| :: rest[k] == drafts[if k < i then k else k + 1];
  }

  lemma ParentsAppend(born: seq<Birth>, b: Birth)
    ensures Parents(born + [b]) == Parents(born) + {b.source}
  {
    var born' := born + [b];
    forall i | 0 <= i < |born|
      ensures born[i].source in Parents(born')
    {
      assert born'[i] == born[i];
    }
    assert born'[|born|].source in Parents(born');
  }

  lemma SpawnedFits(f: Progress, source: WorkspaceRef, dest: WorkspaceRef, i: nat, landed: bool, n: Name)
    requires Fit(f, source, dest) && i < |f.drafts|
    ensures Fit(Spawned(f, i, landed, n), source, dest)
  {
    hide RelatedNames, ForkCopy, Others, Forkable;
    SourcesOfOthers(f.drafts, i);
    CopiesOfOthers(f.listed, source, dest, f.drafts, i);
    if landed {
      ParentsAppend(f.born, Birth(n, f.drafts[i].source));
      assert forall j | 0 <= j < |f.born| :: f.born[j].source in Parents(f.born);
    }
  }

  lemma AbandonedFits(f: Progress, source: WorkspaceRef, dest: WorkspaceRef)
    requires Fit(f, source, dest)
    ensures Fit(Abandoned(f), source, dest)
  {
    hide RelatedNames, ForkCopy, Forkable;
    assert Sources([]) == {};
  }

  /** What a draft is a copy of: a module of the source that was ready or asleep when it was listed, made
      for the destination, with the same configuration, flag and release name and no existing release. */
  lemma DraftIs(f: Progress, source: WorkspaceRef, dest: WorkspaceRef, i: nat)
    requires Fit(f, source, dest) && i < |f.drafts|
    ensures f.drafts[i].source in f.listed
    ensures var original, copy := f.listed[f.drafts[i].source], f.drafts[i].copy;
            && original.spec.workspace == source && (original.phase.Ready? || original.phase.Sleeped?)
            && copy.spec.workspace == dest && copy.spec.config == original.spec.config
            && copy.declared == original.declared && copy.spec.hibernated == original.spec.hibernated
            && copy.phase.Empty? && copy.annotations == map[]
            && (copy.spec.helm.Some? <==> original.spec.helm.Some?)
            && (copy.spec.helm.Some? ==>
                  copy.spec.helm.value == original.spec.helm.value.(existing := None))
  {
  }
}
