/** Admission of modules: the default release name, the fields an update may not change, and what
    stays fixed over any chain of updates. */
module Admission {
  import opened Common
  import opened ModuleSpecs
  import MS = ModuleStore
  import HelmScaling
  import MP = ModuleProtocol
  import ModuleRuns

  const SUFFIX_LENGTH := 11

  function NoHyphens(s: string): string {
    if s == "" then "" else (if s[0] == '-' then "" else [s[0]]) + NoHyphens(s[1..])
  }

  function Prefix(s: string, n: nat): string {
    if |s| <= n then s else s[..n]
  }

  function GeneratedName(namespace: string, uuid: string): string {
    namespace + "-" + Prefix(NoHyphens(uuid), SUFFIX_LENGTH)
  }

  /** A Helm module without a release name is given one. */
  function Defaulted(namespace: string, spec: ModuleSpec, uuid: string): ModuleSpec {
    if spec.helm.Some? && spec.helm.value.releaseName.None?
    then spec.(helm := Some(spec.helm.value.(releaseName := Some(GeneratedName(namespace, uuid)))))
    else spec
  }

  lemma NoHyphensConcat(s: string, t: string)
    ensures NoHyphens(s + t) == NoHyphens(s) + NoHyphens(t)
  {
    if s == "" {
      assert s + t == t;
    } else {
      assert (s + t)[1..] == s[1..] + t;
      NoHyphensConcat(s[1..], t);
    }
  }

  method Default(namespace: string, spec: ModuleSpec, uuid: string) returns (r: ModuleSpec)
    ensures r == Defaulted(namespace, spec, uuid)
  {
    r := spec;
    if spec.helm.Some? && spec.helm.value.releaseName.None? {
      var clean := "";
      var i := 0;
      while i < |uuid|
        invariant 0 <= i <= |uuid| && |clean| < SUFFIX_LENGTH
        invariant clean == NoHyphens(uuid[..i])
      {
        assert uuid[..i + 1] == uuid[..i] + [uuid[i]];
        NoHyphensConcat(uuid[..i], [uuid[i]]);
        if uuid[i] != '-' {
          clean := clean + [uuid[i]];
        }
        i := i + 1;
        if |clean| == SUFFIX_LENGTH {
          break;
        }
      }
      assert uuid == uuid[..i] + uuid[i..];
      NoHyphensConcat(uuid[..i], uuid[i..]);
      assert Prefix(clean + NoHyphens(uuid[i..]), SUFFIX_LENGTH) == clean;
      assert namespace + "-" + clean == GeneratedName(namespace, uuid);
      r := spec.(helm := Some(spec.helm.value.(releaseName := Some(namespace + "-" + clean))));
    }
  }

  /** The text form of a UUID: 36 characters, with hyphens at four places. */
  predicate IsUuid(s: string) {
    |s| == 36 && forall i | 0 <= i < 36 :: s[i] == '-' <==> i == 8 || i == 13 || i == 18 || i == 23
  }

  lemma {:induction false} NoHyphensId(s: string)
    requires '-' !in s
    ensures NoHyphens(s) == s
  {
    if s != "" {
      assert s[0] in s && forall c | c in s[1..] :: c in s;
      NoHyphensId(s[1..]);
    }
  }

  /** The generated name is the module's namespace, a hyphen and eleven hexadecimal digits: its length
      depends on the namespace, and it is never the documented twelve characters beginning with m. */
  lemma GeneratedNameShape(namespace: string, uuid: string)
    requires IsUuid(uuid)
    ensures GeneratedName(namespace, uuid) == namespace + "-" + uuid[..8] + uuid[9..12]
    ensures |GeneratedName(namespace, uuid)| == |namespace| + 12
    ensures !(|GeneratedName(namespace, uuid)| == 12 && GeneratedName(namespace, uuid)[0] == 'm')
  {
    var a, b, rest := uuid[..8], uuid[9..12], uuid[12..];
    assert uuid == a + ("-" + (b + rest));
    NoHyphensId(a);
    NoHyphensId(b);
    assert NoHyphens("-") == "";
    NoHyphensConcat(a, "-" + (b + rest));
    NoHyphensConcat("-", b + rest);
    NoHyphensConcat(b, rest);
    assert Prefix(NoHyphens(uuid), SUFFIX_LENGTH) == a + b;
  }

  // ---------------------------------------------------------------- immutable fields

  predicate AdmitsHelm(before: HelmSpec, after: HelmSpec) {
    && before.releaseName == after.releaseName
    && before.existing == after.existing
    && (before.existing.None? && after.existing.None? ==> before.namespace == after.namespace)
    && before.outputs == after.outputs
  }

  /** May an update turn one specification into the other? */
  predicate Admits(before: ModuleSpec, after: ModuleSpec) {
    && before.workspace == after.workspace
    && before.config == after.config
    && (match (before.helm, after.helm)
        case (None, None) => true
        case (Some(h), Some(h')) => AdmitsHelm(h, h')
        case _ => false)
    && (match (before.custom, after.custom)
        case (None, None) => true
        case (Some(c), Some(c')) => c.image == c'.image
        case _ => false)
  }

  /** A submitted update is defaulted, then checked against the stored specification. */
  datatype Update = Update(spec: ModuleSpec, uuid: string)

  function Submit(namespace: string, stored: ModuleSpec, u: Update): ModuleSpec {
    var spec := Defaulted(namespace, u.spec, u.uuid);
    if Admits(stored, spec) then spec else stored
  }

  /** The stored specification after a creation and any number of submitted updates. */
  function Stored(namespace: string, created: Update, updates: seq<Update>): ModuleSpec {
    if updates == [] then Defaulted(namespace, created.spec, created.uuid)
    else Submit(namespace, Stored(namespace, created, updates[..|updates| - 1]), updates[|updates| - 1])
  }

  // ---------------------------------------------------------------- identity

  /** The release a Helm module stands for, before rendering; None if it has no release name at all,
      which makes the getter crash. */
  function EffectiveRelease(h: HelmSpec): Option<string> {
    if h.existing.Some? then Some(h.existing.value.name) else h.releaseName
  }

  function EffectiveNamespace(h: HelmSpec): string {
    if h.existing.Some? then h.existing.value.namespace else h.namespace
  }

  datatype Identity = Identity(
    helm: bool, release: Option<string>, namespace: string, adopted: bool,
    outputs: seq<string>, workspace: WorkspaceRef, config: Option<string>, image: Option<string>)

  function IdentityOf(spec: ModuleSpec): Identity {
    Identity(
      spec.helm.Some?,
      if spec.helm.Some? then EffectiveRelease(spec.helm.value) else None,
      if spec.helm.Some? then EffectiveNamespace(spec.helm.value) else "",
      spec.helm.Some? && spec.helm.value.existing.Some?,
      if spec.helm.Some? then spec.helm.value.outputs else [],
      spec.workspace, spec.config,
      if spec.custom.Some? then Some(spec.custom.value.image) else None)
  }

  /** A module's identity never changes, and a Helm module always has a release name. */
  lemma {:induction false} IdentityStable(namespace: string, created: Update, updates: seq<Update>)
    ensures IdentityOf(Stored(namespace, created, updates)) == IdentityOf(Stored(namespace, created, []))
    ensures IdentityOf(Stored(namespace, created, updates)).helm ==>
              Stored(namespace, created, updates).helm.value.releaseName.Some?
              && IdentityOf(Stored(namespace, created, updates)).release.Some?
  {
    if updates != [] {
      IdentityStable(namespace, created, updates[..|updates| - 1]);
    }
  }

  /** The namespace field of an adopted module can be edited freely; it is the only part of the name
      that can, and it does not count. */
  lemma NamespaceFreeIff(before: HelmSpec, after: HelmSpec)
    requires after == before.(namespace := after.namespace) && after.namespace != before.namespace
    ensures AdmitsHelm(before, after) <==> before.existing.Some?
    ensures AdmitsHelm(before, after) ==> EffectiveNamespace(after) == EffectiveNamespace(before)
  {
  }

  /** An update that leaves the release name out is refused, unless the newly generated name happens
      to be the stored one. */
  lemma DroppedNameRefused(namespace: string, stored: ModuleSpec, uuid: string)
    requires stored.helm.Some? && stored.helm.value.releaseName.Some?
    ensures var dropped := stored.(helm := Some(stored.helm.value.(releaseName := None)));
            Admits(stored, Defaulted(namespace, dropped, uuid)) <==>
            stored.helm.value.releaseName.value == GeneratedName(namespace, uuid)
  {
  }

  /** Defaulting only ever fills in a missing release name. */
  lemma DefaultedOnly(namespace: string, spec: ModuleSpec, uuid: string)
    ensures spec.helm.None? || spec.helm.value.releaseName.Some? ==> Defaulted(namespace, spec, uuid) == spec
    ensures spec.helm.Some? && spec.helm.value.releaseName.None? ==>
              var d := Defaulted(namespace, spec, uuid);
              && d.helm.Some? && d.helm.value.releaseName == Some(GeneratedName(namespace, uuid))
              && d.(helm := Some(d.helm.value.(releaseName := None))) == spec
  {
  }

  /** An update is admitted if and only if it keeps the workspace, the configuration, the kind of module, and
      of a Helm module the release name, the existing release, the outputs and, unless it was adopted, the
      namespace, of a custom one the image; the hibernation flag and everything else may change. */
  lemma AdmitsIff(before: ModuleSpec, after: ModuleSpec)
    ensures Admits(before, after) <==>
            && after.workspace == before.workspace && after.config == before.config
            && (after.helm.Some? <==> before.helm.Some?) && (after.custom.Some? <==> before.custom.Some?)
            && (before.helm.Some? ==>
                  var h, h' := before.helm.value, after.helm.value;
                  exists namespace, migration, rest ::
                    h' == h.(namespace := namespace, migration := migration, rest := rest)
                    && (h.existing.None? ==> namespace == h.namespace))
            && (before.custom.Some? ==> exists rest :: after.custom.value == before.custom.value.(rest := rest))
  {
    if Admits(before, after) {
      if before.helm.Some? {
        var h, h' := before.helm.value, after.helm.value;
        assert h' == h.(namespace := h'.namespace, migration := h'.migration, rest := h'.rest);
      }
      if before.custom.Some? {
        assert after.custom.value == before.custom.value.(rest := after.custom.value.rest);
      }
    }
  }

  /** The constants of the module protocol, for a Helm module. */
  function ProtocolConfig(id: Identity): MP.Config
    requires id.helm && id.release.Some?
  {
    MP.Config(HelmScaling.Release(id.release.value, id.namespace), true, id.adopted)
  }

  /** So over any chain of updates the protocol's configuration is the one fixed at creation, and in
      every run an adopted module is never installed and never uninstalled. */
  lemma AdoptedNeverTouched(namespace: string, created: Update, updates: seq<Update>, s0: MP.State, run: seq<MP.Action>)
    requires Stored(namespace, created, []).helm.Some? && Stored(namespace, created, []).helm.value.existing.Some?
    requires MP.Fresh(s0)
    ensures var id := IdentityOf(Stored(namespace, created, updates));
            && id.helm && id.release.Some? && id.adopted
            && id == IdentityOf(Stored(namespace, created, []))
            && MP.Install !in MP.Exec(ProtocolConfig(id), s0, run).trace
            && MP.Uninstall !in MP.Exec(ProtocolConfig(id), s0, run).trace
  {
    IdentityStable(namespace, created, updates);
    IdentityStable(namespace, created, []);
    ModuleRuns.InstallationFirst(ProtocolConfig(IdentityOf(Stored(namespace, created, updates))), s0, run);
  }

  // ---------------------------------------------------------------- forks

  /** A fork of a module that was installed (not adopted) stands for the same release in the same
      namespace as its source; only the fork of an adopted module gets a release of its own. */
  lemma ForkSharesReleaseIff(source: MS.Record, dest: WorkspaceRef, namespace: string, uuid: string)
    requires source.spec.helm.Some? && source.spec.helm.value.releaseName.Some?
    ensures var fork := Defaulted(namespace, MS.ForkCopy(source, dest).spec, uuid);
            var h := source.spec.helm.value;
            && fork == MS.ForkCopy(source, dest).spec
            && !IdentityOf(fork).adopted && IdentityOf(fork).release.Some?
            && (IdentityOf(fork).release == IdentityOf(source.spec).release
                && IdentityOf(fork).namespace == IdentityOf(source.spec).namespace
                <==> h.existing.None? || h.existing == Some(ExistingRelease(h.releaseName.value, h.namespace)))
  {
  }

  /** The migration lists are not among the protected fields: an update may replace them by any others,
      and then source and copy need not be equally long. */
  lemma ListsEditable(spec: ModuleSpec, lists: Migration)
    requires spec.helm.Some?
    ensures Admits(spec, spec.(helm := Some(spec.helm.value.(migration := lists))))
  {
  }
}
