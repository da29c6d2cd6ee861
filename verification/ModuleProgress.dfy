/** What a module achieves when nothing fails: one reconcile installs it, puts it to sleep or wakes it,
    and sleeping and waking is a round trip. */
module ModuleProgress {
  import opened Common
  import opened HelmScaling
  import opened ModuleProtocol

  /** The module can be worked on, and its workspace is ready. */
  predicate Workable(s: State) {
    && s.pc.Idle? && s.obj.stored && !s.obj.deleting
    && s.workspace.Some? && s.workspace.value.ready && s.workspace.value.phase.WsReady?
  }

  /** Likewise for sleeping and waking, for which the workspace may also be hibernated. */
  predicate Rousable(s: State) {
    && s.pc.Idle? && s.obj.stored && !s.obj.deleting
    && s.workspace.Some? && s.workspace.value.ready
    && (s.workspace.value.phase.WsReady? || s.workspace.value.phase.WsHibernated?)
  }

  /** The manager is called from exactly these states: it was built, the workspace was read, and for each
      operation the workspace is in a suitable state and the release is not an adopted one. */
  lemma CallsIff(cfg: Config, s: State, wsReadable: bool, built: bool, o: Outcome)
    requires s.pc.Gating?
    ensures Next(cfg, s, Gate(wsReadable, built, o)).pc == Calling(s.pc.op) <==>
            && built && wsReadable && s.workspace.Some?
            && var ws := s.workspace.value;
            match s.pc.op
            case Install => !cfg.adopted && ws.ready && ws.phase.WsReady?
            case Sleep => ws.ready && (ws.phase.WsReady? || ws.phase.WsHibernated?)
            case Resume => ws.ready && (ws.phase.WsReady? || ws.phase.WsHibernated?)
            case Uninstall =>
              && !cfg.adopted
              && (ws.deleting || (ws.ready && (ws.phase.WsReady? || ws.phase.WsHibernated? || ws.phase.WsFailed?)))
  {
    hide CanReturn, MayRescale;
  }

  /** A reconcile of a settled module does nothing exactly if the module is ready and meant to be awake,
      asleep and meant to sleep, or failed. */
  lemma RestsIff(cfg: Config, s: State)
    requires s.pc.Idle? && s.obj.stored && !s.obj.deleting
    requires s.obj.phase.Ready? || s.obj.phase.Sleeped? || s.obj.phase.Failed?
    ensures Next(cfg, s, Start(true)) == s <==>
            || s.obj.phase.Failed?
            || (s.obj.phase.Ready? && !s.obj.hibernated)
            || (s.obj.phase.Sleeped? && s.obj.hibernated)
  {
    hide CanReturn, MayRescale;
  }

  /** An acknowledged announcement puts the module in the operation's transitional phase, with the metadata
      of the fresh copy in memory; any other outcome ends the reconcile. */
  lemma Announces(cfg: Config, s: State, op: Call, o: Outcome)
    requires s.pc == Announcing(op) && s.obj.stored
    ensures var t := Next(cfg, s, Write(o));
            && t.pc == (if o.Ok? then Gating(op) else Idle) && t.mem == s.obj.history
            && t.obj == if o.Rejected? then s.obj else
                          s.obj.(lastActivity := Some(s.now),
                                 phase := match op
                                          case Install => Installing
                                          case Sleep => Sleeping
                                          case Resume => Resuming
                                          case Uninstall => Uninstalling)
  {
    hide CanReturn, MayRescale;
  }

  /** The metadata patch is stored if it lands.  After it, a failed sleep or resume ends the reconcile in its
      transitional phase; everything else is settled. */
  lemma Records(cfg: Config, s: State, op: Call, ok: bool, o: Outcome)
    requires s.pc == Recording(op, ok) && s.obj.stored
    ensures var t := Next(cfg, s, Write(o));
            && t.obj == s.obj.(history := if o.Rejected? then s.obj.history else s.mem)
            && t.pc == if ok || op.Install? then Settling(op, ok) else Idle
  {
    hide CanReturn, MayRescale;
  }

  /** How operations settle, and what follows in the same reconcile on the fresh copy: a module that just
      became ready after its installation goes to sleep if it is flagged, and one that just fell asleep
      wakes up if it is not. */
  lemma Settles(cfg: Config, s: State, op: Call, ok: bool)
    requires s.pc == Settling(op, ok) && s.obj.stored && (op.Install? || (ok && (op.Sleep? || op.Resume?)))
    ensures var t := Next(cfg, s, Write(Ok));
            && t.obj == s.obj.(lastActivity := Some(s.now),
                               phase := if op.Sleep? then Sleeped else if ok then Ready else Failed)
            && t.pc == if op.Install? && ok && s.obj.hibernated then Announcing(Sleep)
                       else if op.Sleep? && !s.obj.hibernated then Announcing(Resume)
                       else Idle
  {
    hide CanReturn, MayRescale;
  }

  /** From the announcement of an operation to the point where only its final write is missing; `o` is
      how the annotation patch after the manager call ends. */
  ghost function Unsettled(cfg: Config, s: State, ok: bool, mem: Option<ReplicaHistory>, cluster: Cluster,
                           o: Outcome): State {
    var gated := Next(cfg, Next(cfg, s, Write(Ok)), Gate(true, true, Ok));
    Next(cfg, Next(cfg, gated, Manager(ok, mem, cluster)), Write(o))
  }

  ghost function Operation(cfg: Config, s: State, ok: bool, mem: Option<ReplicaHistory>, cluster: Cluster,
                           o: Outcome): State {
    Next(cfg, Unsettled(cfg, s, ok, mem, cluster, o), Write(Ok))
  }

  lemma GatePassed(cfg: Config, s: State, op: Call)
    requires Rousable(s.(pc := Idle)) && s.pc == Announcing(op) && !op.Uninstall?
    requires op.Install? ==> Workable(s.(pc := Idle)) && !cfg.adopted
    ensures Next(cfg, Next(cfg, s, Write(Ok)), Gate(true, true, Ok))
            == s.(pc := Calling(op), mem := s.obj.history,
                  obj := s.obj.(phase := AnnouncedPhase(op), lastActivity := Some(s.now)))
  {
    hide CanReturn, MayRescale;
    var s1 := Next(cfg, s, Write(Ok));
    assert s1 == s.(pc := Gating(op), mem := s.obj.history,
                    obj := s.obj.(phase := AnnouncedPhase(op), lastActivity := Some(s.now)));
  }

  /** The object after an operation. */
  function Outcomed(s: State, op: Call, ok: bool, mem: Option<ReplicaHistory>, o: Outcome): Object {
    s.obj.(phase := SettledPhase(op, ok), lastActivity := Some(s.now),
           history := if o.Landed() then mem else s.obj.history)
  }

  lemma CallSettled(cfg: Config, s: State, ok: bool, mem: Option<ReplicaHistory>, cluster: Cluster, o: Outcome)
    requires s.pc.Calling? && !s.pc.op.Uninstall? && s.obj.stored && (ok || s.pc.op.Install?)
    requires CanReturn(cfg, s, ok, mem, cluster)
    ensures var u := Next(cfg, Next(cfg, s, Manager(ok, mem, cluster)), Write(o));
            var t := Next(cfg, u, Write(Ok));
            && u.obj.phase == s.obj.phase
            && t.obj == Outcomed(s, s.pc.op, ok, mem, o)
            && t.trace == s.trace + [s.pc.op] && t.cluster == cluster && t.workspace == s.workspace && t.now == s.now
            && t.saved == u.saved == (if s.pc.op.Sleep? then Own(cfg.release, s.cluster) else s.saved)
            && t.pc == AfterSettling(s.pc.op, ok, s.obj.hibernated)
  {
    hide CanReturn, MayRescale, Own;
    var s3 := Next(cfg, s, Manager(ok, mem, cluster));
    assert s3.pc == Recording(s.pc.op, ok) && s3.mem == mem && s3.obj == s.obj && s3.trace == s.trace + [s.pc.op];
    var s4 := Next(cfg, s3, Write(o));
    assert s4.pc == Settling(s.pc.op, ok) && s4.obj == s.obj.(history := if o.Landed() then mem else s.obj.history);
  }

  /** An operation whose manager call can end as given writes its final phase, stores the metadata if the
      patch lands, and is recorded once. */
  lemma OperationDone(cfg: Config, s: State, op: Call, ok: bool, mem: Option<ReplicaHistory>, cluster: Cluster,
                      o: Outcome)
    requires Rousable(s.(pc := Idle)) && s.pc == Announcing(op) && !op.Uninstall?
    requires op.Install? ==> Workable(s.(pc := Idle)) && !cfg.adopted
    requires ok || op.Install?
    requires CanReturn(cfg, s.(pc := Calling(op), mem := s.obj.history), ok, mem, cluster)
    ensures var u, t := Unsettled(cfg, s, ok, mem, cluster, o), Operation(cfg, s, ok, mem, cluster, o);
            && u.obj.phase == AnnouncedPhase(op)
            && t.obj == Outcomed(s, op, ok, mem, o)
            && t.trace == s.trace + [op] && t.cluster == cluster && t.workspace == s.workspace && t.now == s.now
            && t.saved == u.saved == (if op.Sleep? then Own(cfg.release, s.cluster) else s.saved)
            && t.pc == AfterSettling(op, ok, s.obj.hibernated)
  {
    hide Next, SleepRel, ResumeRel, Own;
    GatePassed(cfg, s, op);
    CallSettled(cfg, Next(cfg, Next(cfg, s, Write(Ok)), Gate(true, true, Ok)), ok, mem, cluster, o);
  }

  /** A new module that is not adopted is installed by its first reconcile: ready if the installation
      succeeds and failed if not, with the finalizer in place. */
  lemma Installs(cfg: Config, s: State, ok: bool, cluster: Cluster)
    requires Workable(s) && s.obj.phase.Empty? && !cfg.adopted
    ensures var t := Operation(cfg, Next(cfg, Next(cfg, s, Start(true)), Write(Ok)), ok, s.obj.history, cluster, Ok);
            && t.obj.phase == (if ok then Ready else Failed) && t.obj.finalizer && t.trace == s.trace + [Install]
            && (t.pc.Idle? <==> !ok || !s.obj.hibernated)
            && t.cluster == cluster && t.workspace == s.workspace
            && t.obj.stored && !t.obj.deleting && t.obj.hibernated == s.obj.hibernated
  {
    hide SleepRel, ResumeRel, Own;
    var s2 := Next(cfg, Next(cfg, s, Start(true)), Write(Ok));
    assert s2 == s.(pc := Announcing(Install), obj := s.obj.(finalizer := true));
    OperationDone(cfg, s2, Install, ok, s.obj.history, cluster, Ok);
  }

  /** The first reconcile of a new module up to the gate. */
  ghost function Announced(cfg: Config, s: State): State {
    Next(cfg, Next(cfg, Next(cfg, s, Start(true)), Write(Ok)), Write(Ok))
  }

  lemma AnnouncedIs(cfg: Config, s: State)
    requires s.pc.Idle? && s.obj.stored && !s.obj.deleting && s.obj.phase.Empty?
    ensures Announced(cfg, s) == s.(pc := Gating(Install), mem := s.obj.history,
                                    obj := s.obj.(finalizer := true, phase := Installing, lastActivity := Some(s.now)))
  {
    hide CanReturn, MayRescale;
    assert Next(cfg, Next(cfg, s, Start(true)), Write(Ok))
           == s.(pc := Announcing(Install), obj := s.obj.(finalizer := true));
  }

  /** A new module for an existing release is ready after its first reconcile if the release is found and
      the patch acknowledged, and failed otherwise, with no manager call and no change to the cluster. */
  lemma Adopts(cfg: Config, s: State, found: bool, o: Outcome)
    requires Workable(s) && s.obj.phase.Empty? && cfg.adopted
    ensures var t := Next(cfg, Next(cfg, Announced(cfg, s), Gate(true, found, o)), Write(Ok));
            && t.obj.phase == (if found && o.Ok? then Ready else Failed)
            && t.obj.finalizer && t.trace == s.trace && t.cluster == s.cluster
  {
    hide CanReturn, MayRescale, Announced;
    AnnouncedIs(cfg, s);
    var announced := Announced(cfg, s);
    assert Next(cfg, announced, Gate(true, found, o)) == announced.(pc := Settling(Install, found && o.Ok?));
  }

  /** A new module whose workspace cannot be read, or whose manager cannot be built, is failed after its
      first reconcile. */
  lemma InstallationFails(cfg: Config, s: State, wsReadable: bool, built: bool, o: Outcome)
    requires s.pc.Idle? && s.obj.stored && !s.obj.deleting && s.obj.phase.Empty? && !cfg.adopted
    requires !wsReadable || s.workspace.None? || (Workable(s) && !built)
    ensures var t := Next(cfg, Next(cfg, Announced(cfg, s), Gate(wsReadable, built, o)), Write(Ok));
            t.obj.phase.Failed? && t.pc.Idle? && t.trace == s.trace && t.cluster == s.cluster
  {
    hide CanReturn, MayRescale, Announced;
    AnnouncedIs(cfg, s);
    var announced := Announced(cfg, s);
    assert Next(cfg, announced, Gate(wsReadable, built, o)) == announced.(pc := Settling(Install, false));
  }

  /** A module left installing, sleeping or resuming becomes failed in its next reconcile if and only if its
      last activity is more than five minutes ago. */
  lemma ExpiresIff(cfg: Config, s: State)
    requires s.pc.Idle? && s.obj.stored && !s.obj.deleting && s.obj.lastActivity.Some?
    requires s.obj.phase.Installing? || s.obj.phase.Sleeping? || s.obj.phase.Resuming?
    ensures var t := Next(cfg, Next(cfg, s, Start(true)), Write(Ok));
            && t.pc.Idle? && t.trace == s.trace && t.cluster == s.cluster
            && (t.obj.phase.Failed? <==> s.now - s.obj.lastActivity.value > 300)
            && (s.now - s.obj.lastActivity.value <= 300 ==> t.obj == s.obj)
  {
    hide CanReturn, MayRescale;
  }

  /** A ready module meant to hibernate is put to sleep by one reconcile, its history stored if the
      patch lands. */
  lemma Sleeps(cfg: Config, s: State, mem: Option<ReplicaHistory>, cluster: Cluster, o: Outcome)
    requires Rousable(s) && s.obj.phase.Ready? && s.obj.hibernated
    requires cfg.helm ==> SleepRel(cfg.release, s.obj.history, s.cluster, true, mem, cluster)
    ensures var t := Operation(cfg, Next(cfg, s, Start(true)), true, mem, cluster, o);
            && Rousable(t) && t.workspace == s.workspace
            && t.obj == Outcomed(s, Sleep, true, mem, o) && t.obj.phase.Sleeped?
            && t.cluster == cluster && t.trace == s.trace + [Sleep] && t.saved == Own(cfg.release, s.cluster)
  {
    hide SleepRel, ResumeRel, Own;
    OperationDone(cfg, Next(cfg, s, Start(true)), Sleep, true, mem, cluster, o);
  }

  /** A sleeping module no longer meant to hibernate is woken by one reconcile. */
  lemma Wakes(cfg: Config, s: State, cluster: Cluster)
    requires Rousable(s) && s.obj.phase.Sleeped? && !s.obj.hibernated
    requires cfg.helm ==> ResumeRel(s.obj.history, s.cluster, true, cluster)
    ensures var u := Unsettled(cfg, Next(cfg, s, Start(true)), true, s.obj.history, cluster, Ok);
            var t := Operation(cfg, Next(cfg, s, Start(true)), true, s.obj.history, cluster, Ok);
            && Rousable(t) && t.workspace == s.workspace && t.obj == s.obj.(phase := Ready, lastActivity := Some(s.now))
            && t.cluster == cluster && t.trace == s.trace + [Resume] && t.saved == s.saved
            && t == Next(cfg, u, Write(Ok)) && u.obj.phase.Resuming? && u.saved == s.saved
  {
    hide SleepRel, ResumeRel, Own;
    OperationDone(cfg, Next(cfg, s, Start(true)), Resume, true, s.obj.history, cluster, Ok);
  }

  /** Hibernating a ready module and waking it again, with nothing failing: it is ready as before, all
      its replica counts are back, and no other release was touched. */
  lemma RoundTrip(cfg: Config, s: State, mem: Option<ReplicaHistory>, slept: Cluster, woken: Cluster)
    requires Rousable(s) && s.obj.phase.Ready? && s.obj.hibernated && cfg.helm && Own(cfg.release, s.cluster) != map[]
    requires SleepRel(cfg.release, s.obj.history, s.cluster, true, mem, slept) && ResumeRel(mem, slept, true, woken)
    ensures var asleep := Operation(cfg, Next(cfg, s, Start(true)), true, mem, slept, Ok);
            var told := Next(cfg, asleep, SetHibernated(false));
            var awake := Operation(cfg, Next(cfg, told, Start(true)), true, mem, woken, Ok);
            && asleep.obj.phase.Sleeped?
            && (forall k | k in Own(cfg.release, asleep.cluster) :: Own(cfg.release, asleep.cluster)[k] == 0)
            && awake.obj.phase.Ready? && Own(cfg.release, awake.cluster) == Own(cfg.release, s.cluster)
            && awake.cluster.Keys == s.cluster.Keys
            && (forall k | k in s.cluster ::
                  var w := s.cluster[k];
                  awake.cluster[k] ==
                  if k.namespace == cfg.release.namespace && w.instance == Some(cfg.release.name)
                  then w.(replicas := Some(if w.replicas.None? then 0 else w.replicas.value))
                  else w)
            && awake.trace == s.trace + [Sleep] + [Resume]
  {
    hide SleepRel, ResumeRel, Own, Operation, Unsettled, Matches;
    SleepThenResume(cfg.release, s.obj.history, s.cluster, mem, slept, woken);
    Sleeps(cfg, s, mem, slept, Ok);
    var asleep := Operation(cfg, Next(cfg, s, Start(true)), true, mem, slept, Ok);
    Told(cfg, asleep, false);
    hide Next;
    Wakes(cfg, Next(cfg, asleep, SetHibernated(false)), woken);
  }

  lemma Told(cfg: Config, s: State, value: bool)
    requires s.obj.stored
    ensures Next(cfg, s, SetHibernated(value)) == s.(obj := s.obj.(hibernated := value))
  {
  }

  // ---------------------------------------------------------------- passes as runs

  /** Some run leads from one state to the other. */
  ghost predicate Reaches(cfg: Config, s: State, t: State) {
    exists run :: Exec(cfg, s, run) == t
  }

  lemma ReachesSelf(cfg: Config, s: State)
    ensures Reaches(cfg, s, s)
  {
    assert Exec(cfg, s, []) == s;
  }

  lemma ReachesNext(cfg: Config, s: State, t: State, a: Action)
    requires Reaches(cfg, s, t)
    ensures Reaches(cfg, s, Next(cfg, t, a))
  {
    hide Next;
    var run :| Exec(cfg, s, run) == t;
    ExecAppend(cfg, s, run, a);
  }

  lemma ReachesUnsettled(cfg: Config, s: State, t: State, ok: bool, mem: Option<ReplicaHistory>,
                         cluster: Cluster, o: Outcome)
    requires Reaches(cfg, s, t)
    ensures Reaches(cfg, s, Unsettled(cfg, t, ok, mem, cluster, o))
    ensures Reaches(cfg, s, Operation(cfg, t, ok, mem, cluster, o))
  {
    hide Next, Reaches;
    ReachesNext(cfg, s, t, Write(Ok));
    var gated := Next(cfg, Next(cfg, t, Write(Ok)), Gate(true, true, Ok));
    ReachesNext(cfg, s, Next(cfg, t, Write(Ok)), Gate(true, true, Ok));
    ReachesNext(cfg, s, gated, Manager(ok, mem, cluster));
    ReachesNext(cfg, s, Next(cfg, gated, Manager(ok, mem, cluster)), Write(o));
    ReachesNext(cfg, s, Unsettled(cfg, t, ok, mem, cluster, o), Write(Ok));
  }
}
