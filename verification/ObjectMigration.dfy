/** Copying the contents of Secrets and ConfigMaps between two clusters, which may be the same one. */
module ObjectMigration {
  import opened Common

  datatype ObjectKey = ObjectKey(namespace: string, name: string)

  /** A stored object; `payload` is what a migration carries over (for a Secret its type and data, for
      a ConfigMap its data and binary data). */
  datatype Obj<P> = Obj(
    labels: map<string, string>, annotations: map<string, string>, immutable: Option<bool>, payload: P)

  datatype SecretPayload = SecretPayload(kind: string, data: map<string, seq<bv8>>, stringData: map<string, string>)

  datatype ConfigMapPayload = ConfigMapPayload(data: map<string, string>, binaryData: map<string, seq<bv8>>)

  const RELEASE_NAME := "meta.helm.sh/release-name"

  /** The annotations with the Helm release renamed, if they name one and a new name is given. */
  function Renamed(annotations: map<string, string>, release: string): map<string, string> {
    map k | k in annotations :: if k == RELEASE_NAME && release != "" then release else annotations[k]
  }

  /** What the destination is meant to become. */
  function Migrated<P>(source: Obj<P>, dest: Option<Obj<P>>, release: string): Obj<P> {
    if dest.None? then Obj(source.labels, Renamed(source.annotations, release), None, source.payload)
    else dest.value.(annotations := Renamed(dest.value.annotations, release), payload := source.payload)
  }

  function Lookup<P>(m: map<ObjectKey, Obj<P>>, k: ObjectKey): Option<Obj<P>> {
    if k in m then Some(m[k]) else None
  }

  /** A cluster's objects of one kind.  In an `exact` cluster a failed call has no effect; in a
      `reliable` one no call fails. */
  class Objects<P> {
    const exact: bool
    const reliable: bool
    var objects: map<ObjectKey, Obj<P>>

    constructor (exact: bool, reliable: bool, objects: map<ObjectKey, Obj<P>>)
      ensures this.exact == exact && this.reliable == reliable && this.objects == objects
    {
      this.exact, this.reliable, this.objects := exact, reliable, objects;
    }

    method Call() returns (o: Outcome)
      ensures exact ==> !o.Lost?
      ensures reliable ==> o.Ok?
    {
      o := *;
      if exact && o.Lost? {
        o := Rejected;
      }
      if reliable {
        o := Ok;
      }
    }

    /** `missing` tells a not-found answer from other errors. */
    method Get(k: ObjectKey) returns (r: Option<Obj<P>>, missing: bool)
      ensures r.Some? ==> k in objects && r.value == objects[k]
      ensures missing ==> r.None? && k !in objects
      ensures reliable ==> r == Lookup(objects, k) && missing == (k !in objects)
    {
      var o := Call();
      r := if o.Ok? then Lookup(objects, k) else None;
      missing := o.Ok? && k !in objects;
    }

    method Create(k: ObjectKey, v: Obj<P>) returns (o: Outcome)
      modifies this`objects
      ensures (exact ==> !o.Lost?) && (reliable && k !in old(objects) ==> o.Ok?)
      ensures o.Landed() ==> k !in old(objects)
      ensures objects == if o.Landed() then old(objects)[k := v] else old(objects)
    {
      o := Call();
      if k in objects {
        o := Rejected;
      }
      if o.Landed() {
        objects := objects[k := v];
      }
    }

    method Delete(k: ObjectKey) returns (o: Outcome)
      modifies this`objects
      ensures (exact ==> !o.Lost?) && (reliable && k in old(objects) ==> o.Ok?)
      ensures objects == if o.Landed() then old(objects) - {k} else old(objects)
    {
      o := Call();
      if k !in objects {
        o := Rejected;
      }
      if o.Landed() {
        objects := objects - {k};
      }
    }

    method Update(k: ObjectKey, v: Obj<P>) returns (o: Outcome)
      modifies this`objects
      ensures (exact ==> !o.Lost?) && (reliable && k in old(objects) ==> o.Ok?)
      ensures objects == if o.Landed() then old(objects)[k := v] else old(objects)
    {
      o := Call();
      if k !in objects {
        o := Rejected;
      }
      if o.Landed() {
        objects := objects[k := v];
      }
    }
  }

  /** Copies the annotations one by one and renames the release. */
  method UpdateHelmAnnotations(annotations: map<string, string>, release: string) returns (updated: map<string, string>)
    ensures updated == Renamed(annotations, release)
  {
    updated := map[];
    var rest := annotations.Keys;
    while rest != {}
      invariant rest <= annotations.Keys
      invariant updated == map k | k in annotations && k !in rest :: annotations[k]
      decreases rest
    {
      var k :| k in rest;
      updated, rest := updated[k := annotations[k]], rest - {k};
    }
    if release != "" && RELEASE_NAME in updated {
      updated := updated[RELEASE_NAME := release];
    }
  }

  /** What a migration may do to the destination cluster. */
  ghost predicate Outcomes<P>(source: Option<Obj<P>>, before: map<ObjectKey, Obj<P>>, k: ObjectKey, release: string,
                              exact: bool, ok: bool, after: map<ObjectKey, Obj<P>>)
  {
    || (!ok && after == before)
    || (!ok && k in before && before[k].immutable == Some(true) && after == before - {k})
    || (source.Some? && (ok || !exact) && after == before[k := Migrated(source.value, Lookup(before, k), release)])
  }

  /** Get the source, then create, delete and recreate, or update the destination. */
  method Migrate<P>(src: Objects<P>, sourceKey: ObjectKey, dst: Objects<P>, destKey: ObjectKey,
                    release: string) returns (ok: bool)
    modifies dst`objects
    ensures Outcomes(Lookup(old(src.objects), sourceKey), old(dst.objects), destKey, release, dst.exact, ok,
                     dst.objects)
    ensures src.reliable && dst.reliable ==> (ok <==> sourceKey in old(src.objects))
  {
    var source, missing := src.Get(sourceKey);
    if source.None? {
      return false;
    }
    var dest;
    dest, missing := dst.Get(destKey);
    if dest.None? {
      if !missing {
        return false;
      }
      var annotations := UpdateHelmAnnotations(source.value.annotations, release);
      var o := dst.Create(destKey, Obj(source.value.labels, annotations, None, source.value.payload));
      return o.Ok?;
    }
    var annotations := UpdateHelmAnnotations(dest.value.annotations, release);
    if dest.value.immutable.Some? && dest.value.immutable.value {
      var o := dst.Delete(destKey);
      if !o.Ok? {
        return false;
      }
      assert dst.objects == old(dst.objects) - {destKey};
      var recreated := Obj(dest.value.labels, annotations, dest.value.immutable, source.value.payload);
      o := dst.Create(destKey, recreated);
      assert (old(dst.objects) - {destKey})[destKey := recreated] == old(dst.objects)[destKey := recreated];
      return o.Ok?;
    }
    var changed := dest.value.(payload := source.value.payload, annotations := annotations);
    var o := dst.Update(destKey, changed);
    ok := o.Ok?;
  }

  method MigrateSecret(src: Objects<SecretPayload>, sourceKey: ObjectKey, dst: Objects<SecretPayload>,
                       destKey: ObjectKey, release: string)
    returns (ok: bool)
    modifies dst`objects
    ensures Outcomes(Lookup(old(src.objects), sourceKey), old(dst.objects), destKey, release, dst.exact, ok,
                     dst.objects)
    ensures src.reliable && dst.reliable ==> (ok <==> sourceKey in old(src.objects))
  {
    ok := Migrate(src, sourceKey, dst, destKey, release);
  }

  /** ConfigMap annotations are taken over unchanged. */
  method MigrateConfigMap(src: Objects<ConfigMapPayload>, sourceKey: ObjectKey, dst: Objects<ConfigMapPayload>,
                          destKey: ObjectKey)
    returns (ok: bool)
    modifies dst`objects
    ensures Outcomes(Lookup(old(src.objects), sourceKey), old(dst.objects), destKey, "", dst.exact, ok, dst.objects)
    ensures src.reliable && dst.reliable ==> (ok <==> sourceKey in old(src.objects))
  {
    ok := Migrate(src, sourceKey, dst, destKey, "");
  }

  // ---------------------------------------------------------------- what that means

  /** Success: the destination has the source's payload; an existing destination keeps its labels, its
      immutable flag and all annotations but the release name; a new one takes labels and annotations
      from the source and is never immutable.  Every other object is as before. */
  lemma SuccessCopies<P>(source: Obj<P>, before: map<ObjectKey, Obj<P>>, k: ObjectKey, release: string,
                         exact: bool, after: map<ObjectKey, Obj<P>>)
    requires Outcomes(Some(source), before, k, release, exact, true, after)
    ensures k in after && after[k].payload == source.payload
    ensures k in before ==> after[k].labels == before[k].labels && after[k].immutable == before[k].immutable
    ensures k !in before ==> after[k].labels == source.labels && after[k].immutable.None?
    ensures var annotations := if k in before then before[k].annotations else source.annotations;
            && after[k].annotations.Keys == annotations.Keys
            && forall a | a in annotations ::
                 after[k].annotations[a] ==
                 if a == "meta.helm.sh/release-name" && release != "" then release else annotations[a]
    ensures after.Keys == before.Keys + {k} && forall j | j in before && j != k :: after[j] == before[j]
  {
  }

  /** Failure, when failed calls have no effect: the destination is unchanged, or absent, and absent
      only if it was immutable.  Every other object is as before. */
  lemma FailureLeaves<P>(source: Option<Obj<P>>, before: map<ObjectKey, Obj<P>>, k: ObjectKey, release: string,
                         after: map<ObjectKey, Obj<P>>)
    requires Outcomes(source, before, k, release, true, false, after)
    ensures after == before || (k in before && before[k].immutable == Some(true) && k !in after)
    ensures after.Keys <= before.Keys && forall j | j in before && j != k :: j in after && after[j] == before[j]
  {
  }

  /** Migrating once more changes nothing. */
  lemma MigratedTwice<P>(source: Obj<P>, dest: Option<Obj<P>>, release: string)
    ensures var once := Migrated(source, dest, release); Migrated(source, Some(once), release) == once
    ensures Renamed(source.annotations, "") == source.annotations
  {
    var once := Migrated(source, dest, release);
    assert Renamed(once.annotations, release) == once.annotations;
  }

  // ---------------------------------------------------------------- the indexed loops

  /** Panicked: an index is out of range, which stops the operator. */
  datatype LoopResult = Completed | ConfigError | Panicked

  /** Migrates the objects of two parallel lists.  A migration that fails is only logged. */
  method MigrateAll<P>(src: Objects<P>, sources: seq<ObjectKey>, dst: Objects<P>, dests: seq<ObjectKey>,
                       release: string)
    returns (r: LoopResult)
    modifies dst`objects
    ensures src.reliable && dst.reliable && sources != [] ==> (r.Panicked? <==> |dests| < |sources|) && !r.ConfigError?
    ensures if r.Panicked? then |dests| < |sources| else r.ConfigError? || |sources| <= |dests|
    ensures Parallel(src, sources, dst, dests) && dst.exact ==> forall i | 0 <= i < |sources| && i < |dests| ::
              Done(Lookup(old(src.objects), sources[i]), Lookup(old(dst.objects), dests[i]), release,
                   Lookup(dst.objects, dests[i]))
    ensures Parallel(src, sources, dst, dests) && src.reliable && dst.reliable
            && (forall i | 0 <= i < |sources| :: sources[i] in old(src.objects)) ==>
              forall i | 0 <= i < |sources| && i < |dests| ::
                dests[i] in dst.objects && dst.objects[dests[i]].payload == old(src.objects)[sources[i]].payload
    ensures forall k | k !in dests :: Lookup(dst.objects, k) == Lookup(old(dst.objects), k)
  {
    if |sources| == 0 {
      return Completed;
    }
    var o := dst.Call();
    var o' := src.Call();
    if !o.Ok? || !o'.Ok? {
      return ConfigError;
    }
    ghost var before, from := dst.objects, src.objects;
    for i := 0 to |sources|
      invariant i <= |dests|
      invariant Parallel(src, sources, dst, dests) ==>
                  forall j | 0 <= j < |sources| :: Lookup(src.objects, sources[j]) == Lookup(from, sources[j])
      invariant forall k | k !in dests[..i] :: Lookup(dst.objects, k) == Lookup(before, k)
      invariant Parallel(src, sources, dst, dests) && dst.exact ==> forall j | 0 <= j < i ::
                  Done(Lookup(from, sources[j]), Lookup(before, dests[j]), release, Lookup(dst.objects, dests[j]))
      invariant Parallel(src, sources, dst, dests) && src.reliable && dst.reliable
                && (forall j | 0 <= j < |sources| :: sources[j] in from) ==>
                  forall j | 0 <= j < i ::
                    dests[j] in dst.objects && dst.objects[dests[j]].payload == from[sources[j]].payload
    {
      if i >= |dests| {
        return Panicked;
      }
      assert Parallel(src, sources, dst, dests) ==> dests[i] !in dests[..i];
      var ok := Migrate(src, sources[i], dst, dests[i], release);
      assert dests[..i + 1] == dests[..i] + [dests[i]];
    }
    r := Completed;
  }

  /** The destinations differ from each other and, in one cluster, from the sources. */
  ghost predicate Parallel<P>(src: Objects<P>, sources: seq<ObjectKey>, dst: Objects<P>, dests: seq<ObjectKey>) {
    && (forall i, j | 0 <= i < j < |dests| :: dests[i] != dests[j])
    && (src == dst ==> forall i, j | 0 <= i < |sources| && 0 <= j < |dests| :: sources[i] != dests[j])
  }

  /** What became of one destination: untouched, gone (if it was immutable), or migrated. */
  ghost predicate Done<P>(source: Option<Obj<P>>, before: Option<Obj<P>>, release: string, after: Option<Obj<P>>) {
    || after == before
    || (after.None? && before.Some? && before.value.immutable == Some(true))
    || (source.Some? && after == Some(Migrated(source.value, before, release)))
  }
}
