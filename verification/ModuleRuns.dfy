/** What holds in every run of the module protocol, whatever the environment does: the order of
    manager calls, replica restoration, deletion, and what happens after a refused installation. */
module ModuleRuns {
  import opened Common
  import opened HelmScaling
  import opened ModuleProtocol

  // ---------------------------------------------------------------- the language of manager calls

  /** Any number of Sleep, Resume pairs. */
  ghost predicate Cycles(t: seq<Call>) {
    t == [] || (|t| >= 2 && t[|t| - 2] == Sleep && t[|t| - 1] == Resume && Cycles(t[..|t| - 2]))
  }

  ghost predicate Pieces(t: seq<Call>, a: seq<Call>, b: seq<Call>, c: seq<Call>, d: seq<Call>) {
    && t == a + b + c + d
    && (a == [] || a == [Install]) && Cycles(b) && (c == [] || c == [Sleep]) && (d == [] || d == [Uninstall])
  }

  /** [Install] (Sleep Resume)* [Sleep] [Uninstall], each bracket optional. */
  ghost predicate InLanguage(t: seq<Call>) {
    exists a, b, c, d :: Pieces(t, a, b, c, d)
  }

  /** The automaton of that language. */
  datatype Auto = Begun | Awake | Asleep | Gone | Wrong

  function Advance(q: Auto, c: Call): Auto {
    match (q, c)
    case (Begun, Install) => Awake
    case (Begun, Sleep) => Asleep
    case (Awake, Sleep) => Asleep
    case (Asleep, Resume) => Awake
    case (Begun, Uninstall) => Gone
    case (Awake, Uninstall) => Gone
    case (Asleep, Uninstall) => Gone
    case _ => Wrong
  }

  function Run(t: seq<Call>): Auto {
    if t == [] then Begun else Advance(Run(t[..|t| - 1]), t[|t| - 1])
  }

  lemma RunAppend(t: seq<Call>, c: Call)
    ensures Run(t + [c]) == Advance(Run(t), c)
  {
    assert (t + [c])[..|t|] == t;
  }

  lemma NoCalls()
    ensures Run([]) == Begun
  {
  }

  lemma {:induction false} CyclesRun(a: seq<Call>, b: seq<Call>)
    requires (a == [] || a == [Install]) && Cycles(b)
    ensures Run(a + b) == if a == [] && b == [] then Begun else Awake
  {
    hide Run;
    if b == [] {
      assert a + b == a;
      NoCalls();
      RunAppend([], Install);
      assert [] + [Install] == [Install];
    } else {
      var b' := b[..|b| - 2];
      CyclesRun(a, b');
      RunAppend(a + b', Sleep);
      RunAppend(a + b' + [Sleep], Resume);
      assert a + b == a + b' + [Sleep] + [Resume];
    }
  }

  lemma Composed(a: seq<Call>, b: seq<Call>, c: seq<Call>, d: seq<Call>)
    requires (a == [] || a == [Install]) && Cycles(b) && (c == [] || c == [Sleep]) && (d == [] || d == [Uninstall])
    ensures !Run(a + b + c + d).Wrong?
  {
    hide Run;
    CyclesRun(a, b);
    assert AwakeAuto(Run(a + b));
    assert AwakeAuto(Run(a + b + c)) || Run(a + b + c).Asleep? by {
      if c == [] {
        assert a + b + c == a + b;
      } else {
        RunAppend(a + b, Sleep);
      }
    }
    if d == [] {
      assert a + b + c + d == a + b + c;
    } else {
      RunAppend(a + b + c, Uninstall);
    }
  }

  /** The automaton accepts exactly the language. */
  lemma LanguageIsAutomaton(t: seq<Call>)
    ensures InLanguage(t) <==> !Run(t).Wrong?
  {
    hide Run;
    if InLanguage(t) {
      var a, b, c, d :| Pieces(t, a, b, c, d);
      Composed(a, b, c, d);
    }
    if !Run(t).Wrong? {
      Accepted(t);
    }
  }

  lemma LastCall(t: seq<Call>)
    requires t != []
    ensures Run(t) == Advance(Run(t[..|t| - 1]), t[|t| - 1])
  {
  }

  /** A word the automaton accepts can be cut as the language says. */
  lemma {:induction false} Accepted(t: seq<Call>)
    requires !Run(t).Wrong?
    ensures InLanguage(t)
  {
    hide Run, Cycles;
    NoCalls();
    if t != [] {
      LastCall(t);
    }
    if Run(t).Gone? {
      var a, b, c := Cut(t[..|t| - 1]);
      assert t == t[..|t| - 1] + [Uninstall];
      assert Pieces(t, a, b, c, [Uninstall]);
    } else {
      var a, b, c := Cut(t);
      assert Pieces(t, a, b, c, []);
    }
  }

  lemma {:induction false} Cut(t: seq<Call>) returns (a: seq<Call>, b: seq<Call>, c: seq<Call>)
    requires !Run(t).Wrong? && !Run(t).Gone?
    ensures t == a + b + c && (a == [] || a == [Install]) && Cycles(b)
    ensures c == if Run(t).Asleep? then [Sleep] else []
    ensures Run(t).Begun? ==> t == []
  {
    hide Run;
    NoCalls();
    if t == [] {
      a, b, c := [], [], [];
    } else {
      var u, last := t[..|t| - 1], t[|t| - 1];
      LastCall(t);
      a, b, c := Cut(u);
      assert t == u + [last];
      if last == Install {
        a := [Install];
      } else if last == Sleep {
        c := [Sleep];
      } else if last == Resume {
        var b' := b + [Sleep, Resume];
        assert b'[..|b|] == b;
        assert u == a + b + [Sleep];
        b, c := b', [];
      }
    }
  }

  // ---------------------------------------------------------------- the invariant

  predicate AwakeAuto(q: Auto) {
    q.Begun? || q.Awake?
  }

  /** The operation a control point lies inside of, after its announcement. */
  predicate Inside(pc: Pc) {
    pc.Gating? || pc.Calling? || pc.Recording? || pc.Settling?
  }

  /** Which phases an announcement can start from. */
  predicate StartsFrom(op: Call, phase: Phase) {
    match op
    case Install => phase.Empty?
    case Sleep => phase.Ready?
    case Resume => phase.Sleeped?
    case Uninstall => Deletable(phase)
  }

  /** Which objects a control point can meet. */
  predicate ObjectFits(obj: Object, pc: Pc) {
    && (pc.Finalizing? ==> obj.phase.Empty?)
    && (pc.Announcing? ==> StartsFrom(pc.op, obj.phase) && (pc.op.Uninstall? ==> obj.deleting))
    && (Inside(pc) ==> obj.phase == AnnouncedPhase(pc.op))
    && (pc.Settling? && !pc.ok ==> pc.op.Install? || pc.op.Uninstall?)
    && (pc.Recording? ==> !pc.op.Uninstall?)
    && (pc.Expiring? ==> Transitional(obj.phase) && !obj.phase.Uninstalling?)
    && (obj.stored && !obj.finalizer ==> obj.phase.Empty? && !obj.deleting)
    && (!obj.stored || !obj.finalizer ==> pc.Idle? || pc.Finalizing?)
    && (obj.phase.Uninstalling? ==> obj.deleting)
    && (!obj.phase.Empty? ==> obj.lastActivity.Some?)
  }

  /** The automaton states in which an operation may be called. */
  predicate MayCall(q: Auto, op: Call) {
    !Advance(q, op).Wrong?
  }

  /** Which automaton states the manager calls can be in, given phase and control point. */
  predicate AutoFits(q: Auto, phase: Phase, pc: Pc) {
    && !q.Wrong?
    && (q.Gone? ==> phase.Uninstalling?)
    && (phase.Empty? ==> q.Begun?)
    && (phase.Installing? || phase.Ready? ==> AwakeAuto(q))
    && (phase.Sleeped? ==> q.Asleep?)
    && (pc.Gating? || pc.Calling? ==> MayCall(q, pc.op))
    && (pc.Recording? ==> q == Advance(if pc.op.Resume? then Asleep else Begun, pc.op))
    && (pc.Settling? && pc.op.Sleep? ==> q.Asleep?)
    && (pc.Settling? && pc.op.Resume? ==> q.Awake?)
  }

  /** Installation comes first unless the release was adopted; an adopted release is never
      installed or uninstalled. */
  predicate OriginFits(adopted: bool, o: Origin, phase: Phase, pc: Pc) {
    && (adopted ==> !o.touched)
    && (adopted && (pc.Calling? || pc.Recording?) ==> pc.op.Sleep? || pc.op.Resume?)
    && (!adopted && (phase.Ready? || phase.Sleeping? || phase.Sleeped? || phase.Resuming?) ==> o.first)
    && (!adopted && (pc.Recording? || (pc.Settling? && pc.op.Install? && pc.ok)) ==> o.first)
    && (!adopted && o.slept ==> o.first)
  }

  /** What the origin argument needs of a trace: does it begin with Install, does it contain an
      Install or Uninstall, does it contain a Sleep. */
  datatype Origin = Origin(first: bool, touched: bool, slept: bool)

  function OriginOf(t: seq<Call>): Origin {
    Origin(|t| > 0 && t[0] == Install, Install in t || Uninstall in t, Sleep in t)
  }

  /** Between an acknowledged Sleep and the next Resume call. */
  predicate Slumber(phase: Phase, pc: Pc) {
    || (pc.Settling? && pc.op.Sleep?) || phase.Sleeped?
    || ((pc.Gating? || pc.Calling?) && pc.op.Resume?)
  }

  /** After a successful Resume call, until it is settled. */
  predicate Woken(pc: Pc) {
    (pc.Recording? || pc.Settling?) && pc.op.Resume? && pc.ok
  }

  /** What the replica histories are good for: the one in memory, and the stored one. */
  datatype Memory = Memory(mem: Option<ReplicaHistory>, stored: Option<ReplicaHistory>,
                           saved: map<Key, int>, durable: bool)

  ghost predicate Holds(h: Option<ReplicaHistory>, saved: map<Key, int>, own: map<Key, int>) {
    h.Some? && HistoryTable(h.value) == saved && own.Keys == saved.Keys
  }

  ghost predicate HistoryFits(m: Memory, own: map<Key, int>, phase: Phase, pc: Pc) {
    && (pc.Gating? || pc.Calling? || (pc.Recording? && pc.op.Resume?) ==> m.mem == m.stored)
    && (pc == Recording(Sleep, true) && m.saved != map[] ==> Holds(m.mem, m.saved, own))
    && (m.durable && m.saved != map[] && Slumber(phase, pc) ==> Holds(m.stored, m.saved, own))
    && (m.durable && m.saved != map[] && Woken(pc) ==> own == m.saved)
  }

  /** What matters of the trace and the cluster: automaton state, origin and the release's
      replica counts. */
  datatype View = View(q: Auto, origin: Origin, own: map<Key, int>)

  ghost function ViewOf(cfg: Config, s: State): View {
    View(Run(s.trace), OriginOf(s.trace), Own(cfg.release, s.cluster))
  }

  ghost predicate Fits(cfg: Config, v: View, s: State) {
    && ObjectFits(s.obj, s.pc)
    && AutoFits(v.q, s.obj.phase, s.pc)
    && OriginFits(cfg.adopted, v.origin, s.obj.phase, s.pc)
    && (cfg.helm ==> HistoryFits(Memory(s.mem, s.obj.history, s.saved, s.durable), v.own, s.obj.phase, s.pc))
  }

  ghost predicate Inv(cfg: Config, s: State) {
    Fits(cfg, ViewOf(cfg, s), s)
  }

  lemma FreshInv(cfg: Config, s: State)
    requires Fresh(s)
    ensures Inv(cfg, s)
  {
  }

  lemma WriteKeepsObject(q: Auto, obj: Object, now: int, mem: Option<ReplicaHistory>,
                         pc: Pc, o: Outcome)
    requires ObjectFits(obj, pc) && AutoFits(q, obj.phase, pc)
    ensures var w := WriteAt(obj, now, mem, pc, o); ObjectFits(w.obj, w.pc) && AutoFits(q, w.obj.phase, w.pc)
  {
  }

  lemma WriteKeepsOrigin(t: Origin, adopted: bool, obj: Object, now: int, mem: Option<ReplicaHistory>,
                         pc: Pc, o: Outcome)
    requires ObjectFits(obj, pc) && OriginFits(adopted, t, obj.phase, pc)
    ensures var w := WriteAt(obj, now, mem, pc, o); OriginFits(adopted, t, w.obj.phase, w.pc)
  {
  }

  lemma WriteKeepsHistory(cfg: Config, v: View, s: State, o: Outcome)
    requires Fits(cfg, v, s) && cfg.helm
    ensures var s' := DoWrite(s, o);
            HistoryFits(Memory(s'.mem, s'.obj.history, s'.saved, s'.durable), v.own, s'.obj.phase, s'.pc)
  {
    hide AutoFits, OriginFits, HistoryTable;
    if s.pc.Recording? {
      RecordingKeepsHistory(v.own, s, o);
    }
  }

  lemma RecordingKeepsHistory(own: map<Key, int>, s: State, o: Outcome)
    requires s.pc.Recording? && ObjectFits(s.obj, s.pc)
    requires HistoryFits(Memory(s.mem, s.obj.history, s.saved, s.durable), own, s.obj.phase, s.pc)
    ensures var s' := DoWrite(s, o);
            HistoryFits(Memory(s'.mem, s'.obj.history, s'.saved, s'.durable), own, s'.obj.phase, s'.pc)
  {
    hide HistoryTable;
  }

  /** The ways out of a gate. */
  lemma GateExits(cfg: Config, ws: Option<WorkspaceView>, op: Call, wsReadable: bool, built: bool, o: Outcome)
    ensures var next := AfterGate(cfg, ws, op, wsReadable, built, o);
            || next.Idle?
            || (next == Calling(op) && (cfg.adopted ==> op.Sleep? || op.Resume?))
            || (next.Settling? && next.op == op && (op.Uninstall? || (op.Install? && (next.ok ==> cfg.adopted))))
  {
  }

  lemma GateFits(cfg: Config, v: View, s: State, wsReadable: bool, built: bool, o: Outcome)
    requires Fits(cfg, v, s)
    ensures Fits(cfg, v, DoGate(cfg, s, wsReadable, built, o))
  {
    hide AfterGate;
    if s.pc.Gating? {
      GateExits(cfg, s.workspace, s.pc.op, wsReadable, built, o);
    }
  }

  /** The effect of one more call on an origin. */
  function Extend(t: Origin, first: bool, c: Call): Origin {
    Origin(if first then c.Install? else t.first, t.touched || c.Install? || c.Uninstall?, t.slept || c.Sleep?)
  }

  lemma ViewAppend(t: seq<Call>, c: Call)
    ensures Run(t + [c]) == Advance(Run(t), c)
    ensures OriginOf(t + [c]) == Extend(OriginOf(t), Run(t).Begun?, c)
    ensures Run(t).Begun? <==> t == []
  {
    RunAppend(t, c);
  }

  /** The manager is only called where the automaton allows it, and installation and
      uninstallation are never called for an adopted release. */
  lemma ManagerKeepsObject(cfg: Config, q: Auto, t: Origin, s: State, ok: bool)
    requires s.pc.Calling? && ObjectFits(s.obj, s.pc) && AutoFits(q, s.obj.phase, s.pc)
    requires OriginFits(cfg.adopted, t, s.obj.phase, s.pc)
    requires q.Begun? ==> t == Origin(false, false, false)
    ensures var pc := if s.pc.op.Uninstall? then Settling(Uninstall, ok) else Recording(s.pc.op, ok);
            && ObjectFits(s.obj, pc) && AutoFits(Advance(q, s.pc.op), s.obj.phase, pc)
            && OriginFits(cfg.adopted, Extend(t, q.Begun?, s.pc.op), s.obj.phase, pc)
  {
  }

  lemma ManagerKeepsHistory(cfg: Config, s: State, ok: bool, mem: Option<ReplicaHistory>, cluster: Cluster)
    requires Inv(cfg, s) && cfg.helm && CanReturn(cfg, s, ok, mem, cluster)
    ensures var s' := DoManager(cfg, s, ok, mem, cluster);
            HistoryFits(Memory(s'.mem, s'.obj.history, s'.saved, s'.durable), Own(cfg.release, cluster),
                        s'.obj.phase, s'.pc)
  {
    hide AutoFits, OriginFits, Run, OriginOf, Own, OwnKeys, Scaled, Restored, HistoryTable, Submap;
    var r := cfg.release;
    if s.pc.op.Sleep? {
      ScaledKeepsOwnKeys(r, s.cluster, OwnKeys(r, s.cluster), 0);
    } else if s.pc.op.Resume? && ok && s.durable && s.saved != map[] {
      RestoreOwn(r, s.cluster, s.saved);
    }
  }

  lemma InvAfterWrite(cfg: Config, s: State, o: Outcome)
    requires Inv(cfg, s)
    ensures Inv(cfg, DoWrite(s, o))
  {
    hide ObjectFits, AutoFits, OriginFits, HistoryFits, WriteAt, Run, OriginOf, Own;
    WriteKeepsObject(Run(s.trace), s.obj, s.now, s.mem, s.pc, o);
    WriteKeepsOrigin(OriginOf(s.trace), cfg.adopted, s.obj, s.now, s.mem, s.pc, o);
    if cfg.helm {
      WriteKeepsHistory(cfg, ViewOf(cfg, s), s, o);
    }
  }

  lemma InvAfterGate(cfg: Config, s: State, w: bool, b: bool, o: Outcome)
    requires Inv(cfg, s)
    ensures Inv(cfg, DoGate(cfg, s, w, b, o))
  {
    hide Run, OriginOf, Own, Fits;
    GateFits(cfg, ViewOf(cfg, s), s, w, b, o);
  }

  lemma InvAfterManager(cfg: Config, s: State, ok: bool, mem: Option<ReplicaHistory>, cluster: Cluster)
    requires Inv(cfg, s)
    ensures Inv(cfg, DoManager(cfg, s, ok, mem, cluster))
  {
    hide Run, Own, ObjectFits, AutoFits, OriginFits, HistoryFits;
    if CanReturn(cfg, s, ok, mem, cluster) {
      ViewAppend(s.trace, s.pc.op);
      ManagerKeepsObject(cfg, Run(s.trace), OriginOf(s.trace), s, ok);
      if cfg.helm {
        ManagerKeepsHistory(cfg, s, ok, mem, cluster);
      }
    }
  }

  lemma StartFits(cfg: Config, v: View, s: State)
    requires Fits(cfg, v, s) && s.pc.Idle? && s.obj.stored
    ensures Fits(cfg, v, s.(pc := DispatchPc(s.obj, s.now)))
  {
  }

  lemma EnvironmentFits(cfg: Config, v: View, s: State, a: Action)
    requires Fits(cfg, v, s) && !a.Start? && !a.Write? && !a.Gate? && !a.Manager? && !a.Rescale?
    ensures Fits(cfg, v, Next(cfg, s, a))
  {
    hide DoWrite, DoGate, DoManager, MayRescale, Holds, HistoryTable;
  }

  lemma RescaleFits(cfg: Config, v: View, s: State, own: map<Key, int>)
    requires Fits(cfg, v, s)
    requires s.obj.phase.Sleeping? || s.obj.phase.Sleeped? || s.obj.phase.Resuming? ==> own == v.own
    ensures Fits(cfg, v.(own := own), s)
  {
  }

  /** Every step of the controller and of the environment keeps the invariant. */
  lemma StepKeepsInv(cfg: Config, s: State, a: Action)
    requires Inv(cfg, s)
    ensures Inv(cfg, Next(cfg, s, a))
  {
    hide Run, OriginOf, Own, ObjectFits, AutoFits, OriginFits, HistoryFits;
    if a.Write? {
      InvAfterWrite(cfg, s, a.o);
    } else if a.Gate? {
      InvAfterGate(cfg, s, a.wsReadable, a.built, a.o);
    } else if a.Manager? {
      InvAfterManager(cfg, s, a.ok, a.mem, a.cluster);
    } else if a.Rescale? {
      if MayRescale(cfg, s, a.cluster) {
        RescaleFits(cfg, ViewOf(cfg, s), s, Own(cfg.release, a.cluster));
      }
    } else if a.Start? {
      if s.pc.Idle? && s.obj.stored {
        StartFits(cfg, ViewOf(cfg, s), s);
      }
    } else {
      EnvironmentFits(cfg, ViewOf(cfg, s), s, a);
    }
  }

  lemma {:induction false} RunKeepsInv(cfg: Config, s: State, run: seq<Action>)
    requires Inv(cfg, s)
    ensures Inv(cfg, Exec(cfg, s, run))
  {
    hide Inv, Next;
    if run != [] {
      RunKeepsInv(cfg, s, run[..|run| - 1]);
      StepKeepsInv(cfg, Exec(cfg, s, run[..|run| - 1]), run[|run| - 1]);
    }
  }

  /** The invariant holds in every state a module can ever be in. */
  lemma ReachableInv(cfg: Config, s0: State, run: seq<Action>)
    requires Fresh(s0)
    ensures Inv(cfg, Exec(cfg, s0, run))
  {
    FreshInv(cfg, s0);
    RunKeepsInv(cfg, s0, run);
  }

  // ---------------------------------------------------------------- order of manager calls

  /** In every run the manager calls follow [Install] (Sleep Resume)* [Sleep] [Uninstall]. */
  lemma CallsInLanguage(cfg: Config, s0: State, run: seq<Action>)
    requires Fresh(s0)
    ensures InLanguage(Exec(cfg, s0, run).trace)
  {
    ReachableInv(cfg, s0, run);
    LanguageIsAutomaton(Exec(cfg, s0, run).trace);
  }

  /** What the language means for a single call: Install is first and alone, Uninstall is last and
      alone, and a Sleep is followed by nothing but Resume or Uninstall. */
  lemma CallOrder(t: seq<Call>, i: nat, j: nat)
    requires InLanguage(t) && i < j < |t|
    ensures t[j] != Install && t[i] != Uninstall
    ensures t[i] == Sleep && j == i + 1 ==> t[j] == Resume || t[j] == Uninstall
    ensures t[j] == Resume ==> t[j - 1] == Sleep
  {
    hide Run, InLanguage;
    LanguageIsAutomaton(t);
    PrefixStep(t, i);
    PrefixStep(t, j);
    PrefixStep(t, j - 1);
    AcceptedPrefix(t, j + 1);
    AcceptedPrefix(t, i + 1);
    NeverBegunAgain(t[..j]);
    if t[i] == Uninstall {
      GoneIsLast(t, i + 1);
    }
  }

  lemma PrefixStep(t: seq<Call>, n: nat)
    requires n < |t|
    ensures Run(t[..n + 1]) == Advance(Run(t[..n]), t[n])
  {
    assert t[..n + 1][..n] == t[..n];
  }

  lemma {:induction false} AcceptedPrefix(t: seq<Call>, n: nat)
    requires !Run(t).Wrong? && n <= |t|
    ensures !Run(t[..n]).Wrong?
  {
    if n == |t| {
      assert t[..n] == t;
    } else {
      assert t[..|t| - 1][..n] == t[..n];
      AcceptedPrefix(t[..|t| - 1], n);
    }
  }

  lemma NeverBegunAgain(t: seq<Call>)
    ensures Run(t).Begun? <==> t == []
  {
  }

  /** Nothing follows an Uninstall. */
  lemma {:induction false} GoneIsLast(t: seq<Call>, n: nat)
    requires !Run(t).Wrong? && n <= |t| && Run(t[..n]).Gone?
    ensures n == |t|
  {
    if n < |t| {
      PrefixStep(t, n);
      AcceptedPrefix(t, n + 1);
    }
  }

  /** A release that was not adopted is installed before anything else happens to it; an adopted
      one is never installed or uninstalled. */
  lemma InstallationFirst(cfg: Config, s0: State, run: seq<Action>)
    requires Fresh(s0)
    ensures var t := Exec(cfg, s0, run).trace;
            if cfg.adopted then Install !in t && Uninstall !in t
            else (Sleep in t || Resume in t ==> t[0] == Install)
  {
    ReachableInv(cfg, s0, run);
    var t := Exec(cfg, s0, run).trace;
    if Resume in t {
      var j :| 0 <= j < |t| && t[j] == Resume;
      LanguageIsAutomaton(t);
      ResumeAfterSleep(t, j);
    }
  }

  lemma ResumeAfterSleep(t: seq<Call>, j: nat)
    requires !Run(t).Wrong? && j < |t| && t[j] == Resume
    ensures j > 0 && t[j - 1] == Sleep
  {
    AcceptedPrefix(t, j + 1);
    PrefixStep(t, j);
    NeverBegunAgain(t[..j]);
    PrefixStep(t, j - 1);
  }
}
