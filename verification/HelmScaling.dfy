/** Saving and restoring replica counts around a module's sleep: the three scale-down
    loops that record history and the three loops that replay it. */
module HelmScaling {
  import opened Common

  datatype Kind = Deployment | ReplicaSet | StatefulSet

  datatype Key = Key(kind: Kind, namespace: string, name: string)

  /** `instance` is the value of the label app.kubernetes.io/instance. */
  datatype Workload = Workload(instance: Option<string>, replicas: Option<int>)

  type Cluster = map<Key, Workload>

  datatype Release = Release(name: string, namespace: string)

  datatype ReplicaCount = ReplicaCount(namespace: string, name: string, replicas: int)

  datatype ReplicaHistory = ReplicaHistory(
    deployments: seq<ReplicaCount>, replicaSets: seq<ReplicaCount>, statefulSets: seq<ReplicaCount>)
  {
    function Of(kind: Kind): seq<ReplicaCount> {
      match kind
      case Deployment => deployments
      case ReplicaSet => replicaSets
      case StatefulSet => statefulSets
    }

    function With(kind: Kind, counts: seq<ReplicaCount>): ReplicaHistory {
      match kind
      case Deployment => this.(deployments := counts)
      case ReplicaSet => this.(replicaSets := counts)
      case StatefulSet => this.(statefulSets := counts)
    }
  }

  /** An unset replica field reads as zero. */
  function CountOf(w: Workload): int {
    if w.replicas.None? then 0 else w.replicas.value
  }

  predicate Matches(r: Release, k: Key, w: Workload) {
    k.namespace == r.namespace && w.instance == Some(r.name)
  }

  function KeysOfKind(r: Release, c: Cluster, kind: Kind): set<Key> {
    set k | k in c && k.kind == kind && Matches(r, k, c[k])
  }

  ghost function OwnKeys(r: Release, c: Cluster): set<Key> {
    set k | k in c && Matches(r, k, c[k])
  }

  /** The replica counts of the release's own workloads. */
  ghost function Own(r: Release, c: Cluster): map<Key, int> {
    map k | k in c && Matches(r, k, c[k]) :: CountOf(c[k])
  }

  ghost function Scaled(c: Cluster, ks: set<Key>, n: int): Cluster {
    map k | k in c :: if k in ks && CountOf(c[k]) != n then c[k].(replicas := Some(n)) else c[k]
  }

  /** A recorded list read as a table, later entries winning. */
  ghost function Table(kind: Kind, counts: seq<ReplicaCount>): map<Key, int> {
    if counts == [] then map[] else
      var e := counts[|counts| - 1];
      Table(kind, counts[..|counts| - 1])[Key(kind, e.namespace, e.name) := e.replicas]
  }

  ghost function HistoryTable(h: ReplicaHistory): map<Key, int> {
    Table(Deployment, h.deployments) + Table(ReplicaSet, h.replicaSets) + Table(StatefulSet, h.statefulSets)
  }

  /** Writing every count of `t` into the cluster; nothing else changes. */
  ghost function Restored(c: Cluster, t: map<Key, int>): Cluster {
    map k | k in c :: if k in t then c[k].(replicas := Some(t[k])) else c[k]
  }

  /** What one Sleep call may do, whatever fails inside it.  `h` and `h'` are the saved
      history before and after. */
  ghost predicate SleepRel(r: Release, h: Option<ReplicaHistory>, c: Cluster,
                           ok: bool, h': Option<ReplicaHistory>, c': Cluster)
  {
    && (exists ks: set<Key> :: ks <= OwnKeys(r, c) && c' == Scaled(c, ks, 0))
    && (ok ==> c' == Scaled(c, OwnKeys(r, c), 0))
    && (h' == h || (h'.Some? && Submap(HistoryTable(h'.value), Own(r, c))))
    && (ok && Own(r, c) != map[] ==> h'.Some? && HistoryTable(h'.value) == Own(r, c))
    && (Own(r, c) == map[] ==> h' == h)
  }

  /** What one Resume call may do. */
  ghost predicate ResumeRel(h: Option<ReplicaHistory>, c: Cluster, ok: bool, c': Cluster) {
    && (ok ==> h.Some? && HistoryTable(h.value).Keys <= c.Keys && c' == Restored(c, HistoryTable(h.value)))
    && (exists t: map<Key, int> :: c' == Restored(c, t) && (h.None? ==> t == map[])
                                   && (h.Some? ==> t.Keys <= HistoryTable(h.value).Keys))
  }

  ghost predicate Submap(a: map<Key, int>, b: map<Key, int>) {
    forall k | k in a :: k in b && a[k] == b[k]
  }

  lemma ScaledKeepsOwnKeys(r: Release, c: Cluster, ks: set<Key>, n: int)
    ensures Own(r, Scaled(c, ks, n)).Keys == Own(r, c).Keys
    ensures OwnKeys(r, Scaled(c, ks, n)) == OwnKeys(r, c)
  {
  }

  /** Sleep then Resume is the identity on the release's replica counts, provided the release
      has a workload; the workloads of other releases are never touched. */
  lemma SleepThenResume(r: Release, h: Option<ReplicaHistory>, c: Cluster, h': Option<ReplicaHistory>,
                        slept: Cluster, woken: Cluster)
    requires SleepRel(r, h, c, true, h', slept) && ResumeRel(h', slept, true, woken)
    requires Own(r, c) != map[]
    ensures Own(r, woken) == Own(r, c)
    ensures forall k | k in Own(r, slept) :: Own(r, slept)[k] == 0
    ensures slept.Keys == c.Keys && woken.Keys == c.Keys
    ensures forall k | k in c && (k.namespace != r.namespace || c[k].instance != Some(r.name)) ::
              slept[k] == c[k] && woken[k] == c[k]
    ensures forall k | k in c && k.namespace == r.namespace && c[k].instance == Some(r.name) ::
              && (slept[k].replicas.None? || slept[k].replicas == Some(0))
              && woken[k] == c[k].(replicas := Some(if c[k].replicas.None? then 0 else c[k].replicas.value))
  {
    hide Own, OwnKeys, Scaled, Restored, HistoryTable, Submap, Matches;
    assert slept == Scaled(c, OwnKeys(r, c), 0) && woken == Restored(slept, Own(r, c));
    SleptOwn(r, c);
    RestoreOwn(r, slept, Own(r, c));
    EachWorkload(r, c);
  }

  lemma SleptOwn(r: Release, c: Cluster)
    ensures var slept := Scaled(c, OwnKeys(r, c), 0);
            Own(r, slept).Keys == Own(r, c).Keys && forall k | k in Own(r, slept) :: Own(r, slept)[k] == 0
  {
  }

  lemma EachWorkload(r: Release, c: Cluster)
    ensures var slept := Scaled(c, OwnKeys(r, c), 0);
            var woken := Restored(slept, Own(r, c));
            && slept.Keys == c.Keys && woken.Keys == c.Keys
            && (forall k | k in c && (k.namespace != r.namespace || c[k].instance != Some(r.name)) ::
                  slept[k] == c[k] && woken[k] == c[k])
            && (forall k | k in c && k.namespace == r.namespace && c[k].instance == Some(r.name) ::
                  && (slept[k].replicas.None? || slept[k].replicas == Some(0))
                  && woken[k] == c[k].(replicas := Some(if c[k].replicas.None? then 0 else c[k].replicas.value)))
  {
  }

  /** The release's own workloads are those in its namespace that carry its name as the instance label, an
      unset replica field counting as zero. */
  lemma OwnIs(r: Release, c: Cluster, k: Key)
    ensures k in Own(r, c) <==> k in c && k.namespace == r.namespace && c[k].instance == Some(r.name)
    ensures k in Own(r, c) ==> Own(r, c)[k] == if c[k].replicas.None? then 0 else c[k].replicas.value
  {
  }

  /** However a sleep ends, a workload of another namespace or another release is as before, and an own one
      is as before or at zero. */
  lemma SleepTouches(r: Release, h: Option<ReplicaHistory>, c: Cluster, ok: bool, h': Option<ReplicaHistory>,
                     c': Cluster, k: Key)
    requires SleepRel(r, h, c, ok, h', c') && k in c
    ensures c'.Keys == c.Keys
    ensures k.namespace != r.namespace || c[k].instance != Some(r.name) ==> c'[k] == c[k]
    ensures c'[k] == c[k] || c'[k] == c[k].(replicas := Some(0))
  {
    hide Own, HistoryTable, Submap;
    var ks: set<Key> :| ks <= OwnKeys(r, c) && c' == Scaled(c, ks, 0);
  }

  predicate Listed(counts: seq<ReplicaCount>, k: Key) {
    exists i | 0 <= i < |counts| :: counts[i].namespace == k.namespace && counts[i].name == k.name
  }

  /** A history names a workload if one of its entries for that kind has its namespace and name. */
  predicate Named(h: ReplicaHistory, k: Key) {
    Listed(match k.kind
           case Deployment => h.deployments
           case ReplicaSet => h.replicaSets
           case StatefulSet => h.statefulSets, k)
  }

  lemma {:induction false} TableNames(kind: Kind, counts: seq<ReplicaCount>, k: Key)
    ensures k in Table(kind, counts) <==> k.kind == kind && Listed(counts, k)
  {
    if counts != [] {
      var front := counts[..|counts| - 1];
      TableNames(kind, front, k);
      if k.kind == kind && Listed(counts, k) {
        var i :| 0 <= i < |counts| && counts[i].namespace == k.namespace && counts[i].name == k.name;
        assert i < |front| ==> front[i] == counts[i];
      }
    }
  }

  lemma HistoryNames(h: ReplicaHistory, k: Key)
    ensures k in HistoryTable(h) <==> Named(h, k)
  {
    hide Table, Listed;
    TableNames(Deployment, h.deployments, k);
    TableNames(ReplicaSet, h.replicaSets, k);
    TableNames(StatefulSet, h.statefulSets, k);
  }

  /** However a resume ends, only workloads the history names are touched, and of these only the replica
      field. */
  lemma ResumeTouches(h: Option<ReplicaHistory>, c: Cluster, ok: bool, c': Cluster, k: Key)
    requires ResumeRel(h, c, ok, c') && k in c
    ensures c'.Keys == c.Keys
    ensures h.None? || !Named(h.value, k) ==> c'[k] == c[k]
    ensures c'[k].(replicas := c[k].replicas) == c[k]
  {
    hide HistoryTable;
    var t: map<Key, int> :| c' == Restored(c, t) && (h.None? ==> t == map[])
                            && (h.Some? ==> t.Keys <= HistoryTable(h.value).Keys);
    if h.Some? {
      HistoryNames(h.value, k);
    }
  }

  /** Replaying a table that names exactly the release's workloads sets exactly those counts. */
  lemma RestoreOwn(r: Release, c: Cluster, t: map<Key, int>)
    requires t.Keys == Own(r, c).Keys
    ensures Own(r, Restored(c, t)) == t
  {
    assert forall k | k in c && Matches(r, k, c[k]) :: k in Own(r, c);
    assert forall k | k in Own(r, c) :: Matches(r, k, Restored(c, t)[k]);
  }

  lemma RestoreStep(c: Cluster, t: map<Key, int>, k: Key, n: int)
    requires k in c
    ensures Restored(c, t)[k := Restored(c, t)[k].(replicas := Some(n))] == Restored(c, t[k := n])
  {
  }

  lemma ScaledStep(c: Cluster, done: set<Key>, k: Key, n: int)
    requires k in c && k !in done
    ensures Scaled(c, done, n)[k] == c[k]
    ensures CountOf(c[k]) != n ==>
              Scaled(c, done, n)[k := c[k].(replicas := Some(n))] == Scaled(c, done + {k}, n)
    ensures CountOf(c[k]) == n ==> Scaled(c, done + {k}, n) == Scaled(c, done, n)
  {
  }

  lemma SubmapStep(a: map<Key, int>, b: map<Key, int>, k: Key, n: int)
    requires Submap(a, b) && k in b && b[k] == n
    ensures Submap(a[k := n], b)
  {
  }

  lemma TableAppend(kind: Kind, counts: seq<ReplicaCount>, e: ReplicaCount)
    ensures Table(kind, counts + [e]) == Table(kind, counts)[Key(kind, e.namespace, e.name) := e.replicas]
  {
    assert (counts + [e])[..|counts|] == counts;
  }

  lemma {:induction false} TableKind(kind: Kind, counts: seq<ReplicaCount>)
    ensures forall k | k in Table(kind, counts) :: k.kind == kind
  {
    if counts != [] {
      TableKind(kind, counts[..|counts| - 1]);
    }
  }

  /** The Kubernetes client, restricted to what the scaling loops use. */
  class HelmService {
    var cluster: Cluster

    constructor (c: Cluster)
      ensures cluster == c
    {
      cluster := c;
    }

    /** A list call may fail; otherwise it returns each matching workload once, in any order. */
    method List(r: Release, kind: Kind) returns (ok: bool, items: seq<Key>)
      ensures ok ==> Elems(items) == KeysOfKind(r, cluster, kind) && Distinct(items)
      ensures ok ==> forall k :: k in items <==>
                k in cluster && k.kind == kind && k.namespace == r.namespace && cluster[k].instance == Some(r.name)
    {
      ok, items := *, [];
      var rest := KeysOfKind(r, cluster, kind);
      while rest != {}
        invariant Elems(items) + rest == KeysOfKind(r, cluster, kind)
        invariant Elems(items) !! rest && Distinct(items)
        decreases rest
      {
        var k :| k in rest;
        assert k !in items;
        items, rest := items + [k], rest - {k};
      }
      assert forall k :: k in items <==> k in Elems(items);
    }

    /** A patch of a missing workload is always rejected. */
    method PatchReplicas(k: Key, n: int) returns (o: Outcome)
      modifies this
      ensures o.Landed() ==> k in old(cluster) &&
                             cluster == old(cluster)[k := old(cluster)[k].(replicas := Some(n))]
      ensures !o.Landed() ==> cluster == old(cluster)
    {
      o := *;
      if k !in cluster {
        o := Rejected;
      } else if o.Landed() {
        cluster := cluster[k := cluster[k].(replicas := Some(n))];
      }
    }

    /** Scales every workload of one kind, recording the old counts as it goes. */
    method Scale(r: Release, kind: Kind, n: int) returns (counts: seq<ReplicaCount>, ok: bool, ghost done: set<Key>)
      modifies this
      ensures done <= KeysOfKind(r, old(cluster), kind) && cluster == Scaled(old(cluster), done, n)
      ensures ok ==> done == KeysOfKind(r, old(cluster), kind)
      ensures Submap(Table(kind, counts), Own(r, old(cluster)))
      ensures ok ==> Table(kind, counts).Keys == KeysOfKind(r, old(cluster), kind)
      ensures KeysOfKind(r, old(cluster), kind) == {} ==> counts == []
    {
      counts, done := [], {};
      var items;
      ok, items := List(r, kind);
      assert cluster == Scaled(cluster, {}, n);
      if !ok {
        return;
      }
      ghost var own, keys := Own(r, old(cluster)), KeysOfKind(r, old(cluster), kind);
      for i := 0 to |items|
        invariant done == Elems(items[..i])
        invariant cluster == Scaled(old(cluster), done, n)
        invariant Table(kind, counts).Keys == done
        invariant Submap(Table(kind, counts), own)
        invariant |counts| == i
      {
        var k := items[i];
        ElemsStep(items, i);
        ScaledStep(old(cluster), done, k, n);
        var current := CountOf(cluster[k]);
        counts := Record(own, kind, counts, k, current);
        if current != n {
          var o := PatchReplicas(k, n);
          if !o.Ok? {
            return counts, false, if o.Landed() then done + {k} else done;
          }
        }
        done := done + {k};
      }
      assert items[..|items|] == items;
      assert |items| > 0 ==> items[0] in Elems(items);
    }

    /** Appends one observed count to the list being returned. */
    static method Record(ghost own: map<Key, int>, kind: Kind, counts: seq<ReplicaCount>, k: Key, current: int)
      returns (counts': seq<ReplicaCount>)
      requires Submap(Table(kind, counts), own) && k.kind == kind && k in own && own[k] == current
      ensures counts' == counts + [ReplicaCount(k.namespace, k.name, current)]
      ensures Submap(Table(kind, counts'), own) && Table(kind, counts').Keys == Table(kind, counts).Keys + {k}
    {
      counts' := counts + [ReplicaCount(k.namespace, k.name, current)];
      TableAppend(kind, counts, ReplicaCount(k.namespace, k.name, current));
      SubmapStep(Table(kind, counts), own, k, current);
    }

    /** Writes recorded counts back, stopping at the first failure. */
    method ScaleBack(kind: Kind, counts: seq<ReplicaCount>) returns (ok: bool, ghost done: map<Key, int>)
      modifies this
      ensures cluster == Restored(old(cluster), done) && done.Keys <= Table(kind, counts).Keys
      ensures exists n: nat :: n <= |counts| && done == Table(kind, counts[..n])
      ensures ok ==> done == Table(kind, counts) && done.Keys <= old(cluster).Keys
    {
      done := map[];
      assert cluster == Restored(cluster, done);
      for i := 0 to |counts|
        invariant done == Table(kind, counts[..i]) && done.Keys <= old(cluster).Keys
        invariant cluster == Restored(old(cluster), done)
      {
        var e := counts[i];
        var k := Key(kind, e.namespace, e.name);
        TableAppend(kind, counts[..i], e);
        assert counts[..i + 1] == counts[..i] + [e];
        var o := PatchReplicas(k, e.replicas);
        if o.Landed() {
          RestoreStep(old(cluster), done, k, e.replicas);
          done := done[k := e.replicas];
        }
        if !o.Ok? {
          ghost var n := if o.Landed() then i + 1 else i;
          TablePrefix(kind, counts, n);
          assert done == Table(kind, counts[..n]);
          return false, done;
        }
      }
      assert counts[..|counts|] == counts;
      ok := true;
    }
  }

  lemma {:induction false} TablePrefix(kind: Kind, counts: seq<ReplicaCount>, n: nat)
    requires n <= |counts|
    ensures Table(kind, counts[..n]).Keys <= Table(kind, counts).Keys
    decreases |counts| - n
  {
    if n == |counts| {
      assert counts[..n] == counts;
    } else {
      TableAppend(kind, counts[..n], counts[n]);
      assert counts[..n + 1] == counts[..n] + [counts[n]];
      TablePrefix(kind, counts, n + 1);
    }
  }

  lemma ScaledTwice(c: Cluster, a: set<Key>, b: set<Key>, n: int)
    ensures Scaled(Scaled(c, a, n), b, n) == Scaled(c, a + b, n)
  {
  }

  lemma RestoredTwice(c: Cluster, a: map<Key, int>, b: map<Key, int>)
    ensures Restored(Restored(c, a), b) == Restored(c, a + b)
  {
  }

  /** Scaling one kind leaves the counts of the other kinds as they were. */
  lemma OtherKindsUntouched(r: Release, c: Cluster, a: set<Key>, n: int, kind: Kind, t: map<Key, int>)
    requires forall k | k in a :: k.kind != kind
    requires forall k | k in t :: k.kind == kind
    requires Submap(t, Own(r, Scaled(c, a, n)))
    ensures Submap(t, Own(r, c))
    ensures KeysOfKind(r, Scaled(c, a, n), kind) == KeysOfKind(r, c, kind)
  {
    forall k | k in t
      ensures k in Own(r, c) && t[k] == Own(r, c)[k]
    {
      assert k in Own(r, Scaled(c, a, n)) && k !in a;
      assert Scaled(c, a, n)[k] == c[k];
    }
  }

  lemma HistoryWith(h: ReplicaHistory, kind: Kind, counts: seq<ReplicaCount>)
    requires h.Of(kind) == []
    ensures HistoryTable(h.With(kind, counts)) == HistoryTable(h) + Table(kind, counts)
  {
    TableKind(kind, counts);
    TableKind(Deployment, h.deployments);
    TableKind(ReplicaSet, h.replicaSets);
    TableKind(StatefulSet, h.statefulSets);
    var d, r := Table(Deployment, h.deployments), Table(ReplicaSet, h.replicaSets);
    var s := Table(StatefulSet, h.statefulSets);
    var t := Table(kind, counts);
    if kind == Deployment {
      SwapIn(d, r, s, t);
      assert d + r + s == map[] + r + s;
    } else if kind == ReplicaSet {
      assert d + t + s == d + r + s + t;
    } else {
      assert d + r + t == d + r + s + t;
    }
  }

  lemma SwapIn(d: map<Key, int>, r: map<Key, int>, s: map<Key, int>, t: map<Key, int>)
    requires d == map[] && t.Keys !! r.Keys && t.Keys !! s.Keys
    ensures t + r + s == d + r + s + t
  {
  }

  /** The metadata entry is written as soon as one count has been recorded. */
  function Filed(h: Option<ReplicaHistory>, hist: ReplicaHistory): Option<ReplicaHistory> {
    if hist == ReplicaHistory([], [], []) then h else Some(hist)
  }

  ghost function KeysOfKinds(r: Release, c: Cluster, kinds: set<Kind>): set<Key> {
    set k | k in c && k.kind in kinds && Matches(r, k, c[k])
  }

  /** An unfinished sleep: some workloads were scaled, some counts recorded. */
  ghost predicate Partial(r: Release, c: Cluster, hist: ReplicaHistory, done: set<Key>, c': Cluster) {
    && c' == Scaled(c, done, 0) && done <= OwnKeys(r, c)
    && Submap(HistoryTable(hist), Own(r, c))
    && (Own(r, c) == map[] ==> hist == ReplicaHistory([], [], []))
  }

  /** The passes over exactly `kinds` are complete. */
  ghost predicate Passed(r: Release, c: Cluster, kinds: set<Kind>, hist: ReplicaHistory, c': Cluster) {
    && Partial(r, c, hist, KeysOfKinds(r, c, kinds), c')
    && HistoryTable(hist).Keys == KeysOfKinds(r, c, kinds)
    && (forall kind :: kind in kinds || hist.Of(kind) == [])
  }

  lemma PartialIsSleep(r: Release, h: Option<ReplicaHistory>, c: Cluster, hist: ReplicaHistory,
                       done: set<Key>, c': Cluster)
    requires Partial(r, c, hist, done, c')
    ensures SleepRel(r, h, c, false, Filed(h, hist), c')
  {
  }

  lemma PassedIsSleep(r: Release, h: Option<ReplicaHistory>, c: Cluster, hist: ReplicaHistory, c': Cluster)
    requires Passed(r, c, {Deployment, ReplicaSet, StatefulSet}, hist, c')
    ensures SleepRel(r, h, c, true, Filed(h, hist), c')
  {
    var kinds := {Deployment, ReplicaSet, StatefulSet};
    forall k | k in OwnKeys(r, c)
      ensures k in KeysOfKinds(r, c, kinds)
    {
      match k.kind { case Deployment => case ReplicaSet => case StatefulSet => }
    }
    assert KeysOfKinds(r, c, kinds) == OwnKeys(r, c) == Own(r, c).Keys;
    SubmapFull(HistoryTable(hist), Own(r, c));
    PartialIsSleep(r, h, c, hist, OwnKeys(r, c), c');
  }

  lemma SubmapUnion(a: map<Key, int>, b: map<Key, int>, own: map<Key, int>)
    requires Submap(a, own) && Submap(b, own)
    ensures Submap(a + b, own)
  {
  }

  lemma SubmapFull(a: map<Key, int>, own: map<Key, int>)
    requires Submap(a, own) && a.Keys == own.Keys
    ensures a == own
  {
  }

  lemma RestoredNothing(c: Cluster, h: Option<ReplicaHistory>)
    ensures c == Restored(c, map[]) && ResumeRel(h, c, false, c)
  {
    assert c == Restored(c, map[]);
  }

  lemma PartlyResumed(h: ReplicaHistory, c: Cluster, done: map<Key, int>, c': Cluster)
    requires c' == Restored(c, done)
    requires done.Keys <= Table(Deployment, h.Of(Deployment)).Keys + Table(ReplicaSet, h.Of(ReplicaSet)).Keys
                          + Table(StatefulSet, h.Of(StatefulSet)).Keys
    ensures ResumeRel(Some(h), c, false, c')
  {
    assert done.Keys <= HistoryTable(h).Keys;
  }

  lemma FullyResumed(h: ReplicaHistory, c: Cluster, c': Cluster)
    requires c' == Restored(c, map[] + Table(Deployment, h.Of(Deployment)) + Table(ReplicaSet, h.Of(ReplicaSet))
                               + Table(StatefulSet, h.Of(StatefulSet)))
    requires Table(Deployment, h.Of(Deployment)).Keys <= c.Keys && Table(ReplicaSet, h.Of(ReplicaSet)).Keys <= c.Keys
    requires Table(StatefulSet, h.Of(StatefulSet)).Keys <= c.Keys
    ensures ResumeRel(Some(h), c, true, c')
  {
    var d := Table(Deployment, h.deployments);
    assert map[] + d == d;
    assert c' == Restored(c, HistoryTable(h));
  }

  lemma NothingYet(r: Release, c: Cluster)
    ensures Passed(r, c, {}, ReplicaHistory([], [], []), c)
  {
    assert c == Scaled(c, {}, 0);
    assert KeysOfKinds(r, c, {}) == {};
  }

  lemma NothingOwned(r: Release, c: Cluster, kind: Kind)
    ensures Own(r, c) == map[] ==> KeysOfKind(r, c, kind) == {}
  {
    assert forall k | k in KeysOfKind(r, c, kind) :: k in Own(r, c);
  }

  lemma PassFiled(r: Release, c: Cluster, kinds: set<Kind>, kind: Kind, hist: ReplicaHistory, c1: Cluster,
                  counts: seq<ReplicaCount>)
    requires Passed(r, c, kinds, hist, c1) && kind !in kinds
    requires Submap(Table(kind, counts), Own(r, c1))
    requires KeysOfKind(r, c1, kind) == {} ==> counts == []
    ensures KeysOfKind(r, c1, kind) == KeysOfKind(r, c, kind)
    ensures HistoryTable(hist.With(kind, counts)) == HistoryTable(hist) + Table(kind, counts)
    ensures Submap(HistoryTable(hist.With(kind, counts)), Own(r, c))
    ensures Own(r, c) == map[] ==> hist.With(kind, counts) == ReplicaHistory([], [], [])
  {
    TableKind(kind, counts);
    OtherKindsUntouched(r, c, KeysOfKinds(r, c, kinds), 0, kind, Table(kind, counts));
    HistoryWith(hist, kind, counts);
    SubmapUnion(HistoryTable(hist), Table(kind, counts), Own(r, c));
    NothingOwned(r, c, kind);
  }

  lemma PassScaled(r: Release, c: Cluster, kinds: set<Kind>, kind: Kind, hist: ReplicaHistory, c1: Cluster,
                   scaled: set<Key>)
    requires Passed(r, c, kinds, hist, c1)
    requires scaled <= KeysOfKind(r, c, kind)
    ensures Scaled(c1, scaled, 0) == Scaled(c, KeysOfKinds(r, c, kinds) + scaled, 0)
    ensures KeysOfKinds(r, c, kinds) + scaled <= OwnKeys(r, c)
    ensures KeysOfKinds(r, c, kinds + {kind}) == KeysOfKinds(r, c, kinds) + KeysOfKind(r, c, kind)
  {
    ScaledTwice(c, KeysOfKinds(r, c, kinds), scaled, 0);
  }

  lemma PassIsPartial(r: Release, c: Cluster, hist: ReplicaHistory, done: set<Key>, c': Cluster)
    requires c' == Scaled(c, done, 0) && done <= OwnKeys(r, c)
    requires Submap(HistoryTable(hist), Own(r, c))
    requires Own(r, c) == map[] ==> hist == ReplicaHistory([], [], [])
    ensures Partial(r, c, hist, done, c')
  {
  }

  lemma PassIsComplete(r: Release, c: Cluster, kinds: set<Kind>, kind: Kind, hist: ReplicaHistory,
                       c1: Cluster, counts: seq<ReplicaCount>, hist': ReplicaHistory, done: set<Key>, c': Cluster)
    requires hist' == hist.With(kind, counts) && Partial(r, c, hist', done, c')
    requires HistoryTable(hist') == HistoryTable(hist) + Table(kind, counts)
    requires Passed(r, c, kinds, hist, c1) && Table(kind, counts).Keys == KeysOfKind(r, c, kind)
    requires done == KeysOfKinds(r, c, kinds) + KeysOfKind(r, c, kind) == KeysOfKinds(r, c, kinds + {kind})
    ensures Passed(r, c, kinds + {kind}, hist', c')
  {
    assert (HistoryTable(hist) + Table(kind, counts)).Keys == done;
  }

  /** The manager of one Helm module; `h` plays the replica-history entry of its metadata. */
  class HelmManager {
    const service: HelmService
    const release: Release

    constructor (service: HelmService, release: Release)
      ensures this.service == service && this.release == release
    {
      this.service, this.release := service, release;
    }

    /** One of the three passes of Sleep: scale one kind to zero and file the old counts. */
    method SleepKind(kind: Kind, hist: ReplicaHistory, ghost c: Cluster, ghost kinds: set<Kind>)
      returns (hist': ReplicaHistory, ok: bool, ghost done: set<Key>)
      requires Passed(release, c, kinds, hist, service.cluster) && kind !in kinds
      modifies service
      ensures Partial(release, c, hist', done, service.cluster)
      ensures ok ==> Passed(release, c, kinds + {kind}, hist', service.cluster)
    {
      hide *;
      ghost var before, c1, scaled := KeysOfKinds(release, c, kinds), service.cluster, {};
      var counts;
      counts, ok, scaled := service.Scale(release, kind, 0);
      hist' := hist.With(kind, counts);
      done := before + scaled;
      PassFiled(release, c, kinds, kind, hist, c1, counts);
      PassScaled(release, c, kinds, kind, hist, c1, scaled);
      PassIsPartial(release, c, hist', done, service.cluster);
      if ok {
        PassIsComplete(release, c, kinds, kind, hist, c1, counts, hist', done, service.cluster);
      }
    }

    method Sleep(h: Option<ReplicaHistory>) returns (ok: bool, h': Option<ReplicaHistory>)
      modifies service
      ensures SleepRel(release, h, old(service.cluster), ok, h', service.cluster)
    {
      hide *;
      ghost var c, done := service.cluster, {};
      var hist := ReplicaHistory([], [], []);
      NothingYet(release, c);

      hist, ok, done := SleepKind(Deployment, hist, c, {});
      h' := Filed(h, hist);
      if !ok {
        PartialIsSleep(release, h, c, hist, done, service.cluster);
        return;
      }
      assert {} + {Deployment} == {Deployment};

      hist, ok, done := SleepKind(ReplicaSet, hist, c, {Deployment});
      h' := Filed(h, hist);
      if !ok {
        PartialIsSleep(release, h, c, hist, done, service.cluster);
        return;
      }

      assert {Deployment} + {ReplicaSet} == {Deployment, ReplicaSet};

      hist, ok, done := SleepKind(StatefulSet, hist, c, {Deployment, ReplicaSet});
      h' := Filed(h, hist);
      assert {Deployment, ReplicaSet} + {StatefulSet} == {Deployment, ReplicaSet, StatefulSet};
      if ok {
        PassedIsSleep(release, h, c, hist, service.cluster);
      } else {
        PartialIsSleep(release, h, c, hist, done, service.cluster);
      }
    }

    /** One of the three passes of Resume. */
    method ResumeKind(kind: Kind, h: ReplicaHistory, ghost c: Cluster, ghost done: map<Key, int>)
      returns (ok: bool, ghost done': map<Key, int>)
      requires service.cluster == Restored(c, done)
      modifies service
      ensures service.cluster == Restored(c, done') && done'.Keys <= done.Keys + Table(kind, h.Of(kind)).Keys
      ensures ok ==> done' == done + Table(kind, h.Of(kind)) && Table(kind, h.Of(kind)).Keys <= c.Keys
    {
      ghost var more;
      ok, more := service.ScaleBack(kind, h.Of(kind));
      done' := done + more;
      RestoredTwice(c, done, more);
    }

    /** `decodes` is whether the stored history decodes into the expected structure. */
    method Resume(h: Option<ReplicaHistory>, decodes: bool) returns (ok: bool)
      modifies service
      ensures ResumeRel(h, old(service.cluster), ok, service.cluster)
      ensures h.None? || !decodes ==> !ok && service.cluster == old(service.cluster)
    {
      hide *;
      ghost var c: Cluster, done: map<Key, int> := service.cluster, map[];
      RestoredNothing(c, h);
      if h.None? || !decodes {
        return false;
      }
      ok, done := ResumeKind(Deployment, h.value, c, done);
      if !ok {
        PartlyResumed(h.value, c, done, service.cluster);
        return;
      }
      ok, done := ResumeKind(ReplicaSet, h.value, c, done);
      if !ok {
        PartlyResumed(h.value, c, done, service.cluster);
        return;
      }
      ok, done := ResumeKind(StatefulSet, h.value, c, done);
      PartlyResumed(h.value, c, done, service.cluster);
      if ok {
        FullyResumed(h.value, c, service.cluster);
      }
    }
  }

  // ---------------------------------------------------------------- the relations can be met

  /** Any table of one kind can be written as a list. */
  lemma {:induction false} CountsFor(kind: Kind, t: map<Key, int>) returns (counts: seq<ReplicaCount>)
    requires forall k | k in t :: k.kind == kind
    ensures Table(kind, counts) == t
    decreases t.Keys
  {
    if t == map[] {
      counts := [];
    } else {
      var k :| k in t;
      var rest := t - {k};
      var front := CountsFor(kind, rest);
      var e := ReplicaCount(k.namespace, k.name, t[k]);
      TableAppend(kind, front, e);
      counts := front + [e];
      assert rest[k := t[k]] == t;
    }
  }

  /** Any table can be written as a history. */
  lemma HistoryFor(t: map<Key, int>) returns (h: ReplicaHistory)
    ensures HistoryTable(h) == t
  {
    var d := map k | k in t && k.kind.Deployment? :: t[k];
    var r := map k | k in t && k.kind.ReplicaSet? :: t[k];
    var s := map k | k in t && k.kind.StatefulSet? :: t[k];
    var a := CountsFor(Deployment, d);
    var b := CountsFor(ReplicaSet, r);
    var c := CountsFor(StatefulSet, s);
    h := ReplicaHistory(a, b, c);
    ByKind(t, d, r, s);
  }

  lemma ByKind(t: map<Key, int>, d: map<Key, int>, r: map<Key, int>, s: map<Key, int>)
    requires d == map k | k in t && k.kind.Deployment? :: t[k]
    requires r == map k | k in t && k.kind.ReplicaSet? :: t[k]
    requires s == map k | k in t && k.kind.StatefulSet? :: t[k]
    ensures d + r + s == t
  {
    forall k
      ensures k in d + r + s <==> k in t
      ensures k in t ==> (d + r + s)[k] == t[k]
    {
    }
  }

  /** On any cluster a sleep can succeed. */
  lemma SleepCanSucceed(r: Release, h: Option<ReplicaHistory>, c: Cluster)
    returns (h': Option<ReplicaHistory>, c': Cluster)
    ensures SleepRel(r, h, c, true, h', c')
  {
    c' := Scaled(c, OwnKeys(r, c), 0);
    var hist := HistoryFor(Own(r, c));
    h' := if Own(r, c) == map[] then h else Some(hist);
  }

  /** A resume can succeed whenever there is a history that names only existing workloads. */
  lemma ResumeCanSucceed(h: ReplicaHistory, c: Cluster)
    requires HistoryTable(h).Keys <= c.Keys
    ensures ResumeRel(Some(h), c, true, Restored(c, HistoryTable(h)))
  {
  }
}
