/** The cron index of one kind of schedule (sleep or wake-up): a lock, a table from workspace UID
    to scheduler entry, and the scheduler's live entries.  Both managers of the operator have this
    shape.  Parsing a cron expression and computing the next firing are left open. */
module CronIndex {
  import opened Common

  type Uid = string
  type EntryId = nat

  datatype Clockwork<!S> = Clockwork(parse: string -> Option<S>, next: (S, int) -> int)

  datatype Index<S> = Index(locked: bool, ids: map<Uid, EntryId>, entries: map<EntryId, S>, nextId: EntryId)

  /** Blocked: the call waits for a lock that is never released. */
  datatype Answer = Done | Failed | Blocked

  datatype Op = AddOp(uid: Uid, spec: string, overwrite: bool, now: int) | RemoveOp(uid: Uid)

  /** The table is one-to-one and names exactly the live entries. */
  ghost predicate Agrees<S>(c: Index<S>) {
    && (forall u, v | u in c.ids && v in c.ids && u != v :: c.ids[u] != c.ids[v])
    && (forall u | u in c.ids :: c.ids[u] in c.entries)
    && (forall id | id in c.entries :: id < c.nextId && exists u :: u in c.ids && c.ids[u] == id)
  }

  /** Does adding find an entry that fires at another time than the new schedule? */
  predicate Replaces<S>(k: Clockwork<S>, c: Index<S>, uid: Uid, spec: string, now: int)
    requires uid in c.ids ==> c.ids[uid] in c.entries
  {
    uid in c.ids && k.parse(spec).Some? && k.next(c.entries[c.ids[uid]], now) != k.next(k.parse(spec).value, now)
  }

  function Without<S>(c: Index<S>, uid: Uid): Index<S> {
    if uid !in c.ids then c else c.(ids := c.ids - {uid}, entries := c.entries - {c.ids[uid]})
  }

  function With<S>(c: Index<S>, uid: Uid, s: S): Index<S> {
    c.(ids := c.ids[uid := c.nextId], entries := c.entries[c.nextId := s], nextId := c.nextId + 1)
  }

  /** What an operation does to the index. */
  function After<S>(k: Clockwork<S>, c: Index<S>, op: Op): (Index<S>, Answer)
    requires forall u | u in c.ids :: c.ids[u] in c.entries
  {
    if c.locked then (c, Blocked)
    else match op
      case RemoveOp(uid) => (Without(c, uid), Done)
      case AddOp(uid, spec, overwrite, now) =>
        if uid in c.ids && !overwrite then (c, Failed)
        else if k.parse(spec).None? then (c, Failed)
        else if uid !in c.ids then (With(c, uid, k.parse(spec).value), Done)
        else if Replaces(k, c, uid, spec, now) then (c.(locked := true), Blocked)
        else (c, Done)
  }

  class CronManager<S> {
    const clockwork: Clockwork<S>
    var locked: bool
    var ids: map<Uid, EntryId>
    var entries: map<EntryId, S>
    var nextId: EntryId

    ghost function State(): Index<S>
      reads this
    {
      Index(locked, ids, entries, nextId)
    }

    constructor (clockwork: Clockwork<S>)
      ensures this.clockwork == clockwork && State() == Index(false, map[], map[], 0) && Agrees(State())
    {
      this.clockwork := clockwork;
      locked, ids, entries, nextId := false, map[], map[], 0;
    }

    /** The lock is not re-entrant: acquiring it while it is held never succeeds. */
    method Lock() returns (acquired: bool)
      modifies this`locked
      ensures acquired == !old(locked) && locked
    {
      acquired, locked := !locked, true;
    }

    /** Takes the entry and its table row away, under the lock. */
    method Erase(uid: Uid)
      requires Agrees(State())
      modifies this`ids, this`entries
      ensures State() == Without(old(State()), uid) && Agrees(State())
    {
      WithoutAgrees(State(), uid);
      if uid in ids {
        entries := entries - {ids[uid]};
        ids := ids - {uid};
      }
    }

    /** Registers a schedule with the scheduler and enters it in the table, under the lock. */
    method Insert(uid: Uid, s: S)
      requires Agrees(State()) && uid !in ids
      modifies this`ids, this`entries, this`nextId
      ensures State() == With(old(State()), uid, s) && Agrees(State())
    {
      WithAgrees(State(), uid, s);
      entries, ids, nextId := entries[nextId := s], ids[uid := nextId], nextId + 1;
    }

    method Remove(uid: Uid) returns (r: Answer)
      requires Agrees(State())
      modifies this
      ensures (State(), r) == After(clockwork, old(State()), RemoveOp(uid)) && Agrees(State())
    {
      AgreesFacts(State());
      hide Agrees;
      var acquired := Lock();
      if !acquired {
        return Blocked;
      }
      Erase(uid);
      AgreesFacts(State());
      locked := false;
      r := Done;
    }

    method Add(uid: Uid, spec: string, overwrite: bool, now: int) returns (r: Answer)
      requires Agrees(State())
      modifies this
      ensures (State(), r) == After(clockwork, old(State()), AddOp(uid, spec, overwrite, now)) && Agrees(State())
    {
      AgreesFacts(State());
      hide Agrees;
      var acquired := Lock();
      if !acquired {
        return Blocked;
      }
      r := AddHeld(uid, spec, overwrite, now);
    }

    /** Adding under the lock, which is released at the end unless the replacement gets stuck on it. */
    method AddHeld(uid: Uid, spec: string, overwrite: bool, now: int) returns (r: Answer)
      requires Agrees(State()) && locked
      modifies this
      ensures Agrees(old(State()).(locked := false)) && Agrees(State())
      ensures var (d, answer) := After(clockwork, old(State()).(locked := false), AddOp(uid, spec, overwrite, now));
              locked == d.locked && ids == d.ids && entries == d.entries && nextId == d.nextId && r == answer
    {
      AgreesFacts(State());
      hide Agrees;
      var schedule := clockwork.parse(spec);
      if uid in ids {
        if !overwrite {
          locked := false;
          return Failed;
        }
        if schedule.None? {
          locked := false;
          return Failed;
        }
        if clockwork.next(entries[ids[uid]], now) == clockwork.next(schedule.value, now) {
          locked := false;
          return Done;
        }
        r := Remove(uid);
        if r.Blocked? {
          return;
        }
      }
      if schedule.None? {
        locked := false;
        return Failed;
      }
      Insert(uid, schedule.value);
      AgreesFacts(State());
      locked := false;
      r := Done;
    }

    /** Erases and inserts, under the lock. */
    method Replace(uid: Uid, s: S)
      requires Agrees(State())
      modifies this`ids, this`entries, this`nextId
      ensures State() == With(Without(old(State()), uid), uid, s) && Agrees(State())
    {
      hide Agrees;
      Erase(uid);
      Insert(uid, s);
    }

    /** The replacement as it was meant: the old entry is removed under the lock already held. */
    method AddRepaired(uid: Uid, spec: string, overwrite: bool, now: int) returns (r: Answer)
      requires Agrees(State())
      modifies this
      ensures (State(), r) == AfterRepaired(clockwork, old(State()), uid, spec, overwrite, now) && Agrees(State())
    {
      AgreesFacts(State());
      hide Agrees;
      var acquired := Lock();
      if !acquired {
        return Blocked;
      }
      r := RepairedHeld(uid, spec, overwrite, now);
    }

    method RepairedHeld(uid: Uid, spec: string, overwrite: bool, now: int) returns (r: Answer)
      requires Agrees(State()) && locked
      modifies this
      ensures Agrees(old(State()).(locked := false)) && Agrees(State())
      ensures var (d, answer) := AfterRepaired(clockwork, old(State()).(locked := false), uid, spec, overwrite, now);
              locked == d.locked && ids == d.ids && entries == d.entries && nextId == d.nextId && r == answer
    {
      AgreesFacts(State());
      hide Agrees;
      r := Done;
      var schedule := clockwork.parse(spec);
      if schedule.None? || (uid in ids && !overwrite) {
        r := Failed;
      } else if uid !in ids || clockwork.next(entries[ids[uid]], now) != clockwork.next(schedule.value, now) {
        Replace(uid, schedule.value);
        AgreesFacts(State());
      }
      locked := false;
    }
  }

  function AfterRepaired<S>(k: Clockwork<S>, c: Index<S>, uid: Uid, spec: string, overwrite: bool,
                            now: int): (Index<S>, Answer)
    requires forall u | u in c.ids :: c.ids[u] in c.entries
  {
    if c.locked then (c, Blocked)
    else if k.parse(spec).None? || (uid in c.ids && !overwrite) then (c, Failed)
    else if uid in c.ids && !Replaces(k, c, uid, spec, now) then (c, Done)
    else (With(Without(c, uid), uid, k.parse(spec).value), Done)
  }

  /** The repaired add differs from the written one only where that one gets stuck; there it
      replaces the entry, leaves every other workspace's entry alone and frees the lock. */
  lemma RepairedReplaces<S>(k: Clockwork<S>, c: Index<S>, uid: Uid, spec: string, overwrite: bool, now: int)
    requires Agrees(c)
    ensures var (d, r) := AfterRepaired(k, c, uid, spec, overwrite, now);
            && (!After(k, c, AddOp(uid, spec, overwrite, now)).1.Blocked? ==>
                  (d, r) == After(k, c, AddOp(uid, spec, overwrite, now)))
            && (r.Blocked? <==> c.locked) && (!c.locked ==> !d.locked)
            && (r.Done? ==> uid in d.ids && d.ids[uid] in d.entries && k.parse(spec).Some?
                            && k.next(d.entries[d.ids[uid]], now) == k.next(k.parse(spec).value, now))
  {
  }

  lemma RepairedFrame<S>(k: Clockwork<S>, c: Index<S>, uid: Uid, spec: string, overwrite: bool, now: int, v: Uid)
    requires Agrees(c) && v != uid
    ensures var d := AfterRepaired(k, c, uid, spec, overwrite, now).0;
            && (v in d.ids <==> v in c.ids)
            && (v in c.ids ==>
                  d.ids[v] == c.ids[v] && d.ids[v] in d.entries && d.entries[d.ids[v]] == c.entries[c.ids[v]])
  {
    if v in c.ids {
      assert c.ids[v] < c.nextId;
    }
  }

  /** The lock does not matter to the agreement, under which every row has an entry. */
  lemma AgreesFacts<S>(c: Index<S>)
    requires Agrees(c)
    ensures Agrees(c.(locked := true)) && Agrees(c.(locked := false))
    ensures forall u | u in c.ids :: c.ids[u] in c.entries
  {
  }

  lemma WithoutAgrees<S>(c: Index<S>, uid: Uid)
    requires Agrees(c)
    ensures Agrees(Without(c, uid)) && Agrees(Without(c, uid).(locked := true))
    ensures Agrees(Without(c, uid).(locked := false))
  {
    var d := Without(c, uid);
    forall id | id in d.entries
      ensures exists u :: u in d.ids && d.ids[u] == id
    {
      var u :| u in c.ids && c.ids[u] == id;
      assert uid in c.ids ==> u != uid;
      assert u in d.ids;
    }
  }

  lemma WithAgrees<S>(c: Index<S>, uid: Uid, s: S)
    requires Agrees(c) && uid !in c.ids
    ensures Agrees(With(c, uid, s)) && Agrees(With(c, uid, s).(locked := false))
  {
    var d := With(c, uid, s);
    assert forall id | id in c.entries :: id < c.nextId;
    forall id | id in d.entries
      ensures id < d.nextId && exists u :: u in d.ids && d.ids[u] == id
    {
      if id == c.nextId {
        assert d.ids[uid] == id;
      } else {
        var u :| u in c.ids && c.ids[u] == id;
        assert d.ids[u] == id;
      }
    }
  }

  // ---------------------------------------------------------------- runs

  lemma AfterAgrees<S>(k: Clockwork<S>, c: Index<S>, op: Op)
    requires Agrees(c)
    ensures Agrees(After(k, c, op).0)
  {
    match op
    case RemoveOp(uid) => WithoutAgrees(c, uid);
    case AddOp(uid, spec, _, _) =>
      if uid !in c.ids && k.parse(spec).Some? {
        WithAgrees(c, uid, k.parse(spec).value);
      }
  }

  type Consistent<S> = c: Index<S> | Agrees(c) ghost witness Index(false, map[], map[], 0)

  /** One operation on an index whose table agrees with the scheduler. */
  ghost function Stepped<S>(k: Clockwork<S>, c: Consistent<S>, op: Op): (Consistent<S>, Answer) {
    AfterAgrees(k, c, op);
    After(k, c, op)
  }

  /** An operation leaves the entries of all other workspaces alone. */
  lemma OthersFrame<S>(k: Clockwork<S>, c: Index<S>, op: Op, v: Uid)
    requires Agrees(c) && v != op.uid
    ensures var d := After(k, c, op).0;
            && (v in d.ids <==> v in c.ids)
            && (v in c.ids ==>
                  d.ids[v] == c.ids[v] && d.ids[v] in d.entries && d.entries[d.ids[v]] == c.entries[c.ids[v]])
  {
    if v in c.ids {
      assert c.ids[v] < c.nextId;
    }
  }

  /** The index after any sequence of operations. */
  ghost function AfterAll<S>(k: Clockwork<S>, c: Index<S>, ops: seq<Op>): (d: Index<S>)
    requires Agrees(c)
    ensures Agrees(d)
  {
    if ops == [] then c else
      var d := AfterAll(k, c, ops[..|ops| - 1]);
      AfterAgrees(k, d, ops[|ops| - 1]);
      After(k, d, ops[|ops| - 1]).0
  }

  /** In every reachable state of an index that started empty the table is one-to-one and names
      exactly the live entries. */
  lemma IndexMatchesScheduler<S>(k: Clockwork<S>, ops: seq<Op>)
    ensures var c := AfterAll(k, Index(false, map[], map[], 0), ops);
            && (set u | u in c.ids :: c.ids[u]) == c.entries.Keys
            && forall u, v | u in c.ids && v in c.ids && c.ids[u] == c.ids[v] :: u == v
  {
    var c := AfterAll(k, Index(false, map[], map[], 0), ops);
    assert Agrees(c);
  }

  /** An add that completes successfully leaves an entry that next fires when the spec says. */
  lemma AddedFiresOnTime<S>(k: Clockwork<S>, c: Index<S>, uid: Uid, spec: string, overwrite: bool, now: int)
    requires Agrees(c) && After(k, c, AddOp(uid, spec, overwrite, now)).1.Done?
    ensures var d := After(k, c, AddOp(uid, spec, overwrite, now)).0;
            && uid in d.ids && d.ids[uid] in d.entries && k.parse(spec).Some?
            && k.next(d.entries[d.ids[uid]], now) == k.next(k.parse(spec).value, now)
  {
  }

  /** But not necessarily an entry with the new schedule: a schedule that differs and happens to
      fire next at the same moment is dropped.  The stored schedule is the new one exactly when
      the workspace had none or had this one. */
  lemma ScheduleTakenIff<S>(k: Clockwork<S>, c: Index<S>, uid: Uid, spec: string, overwrite: bool, now: int)
    requires Agrees(c) && After(k, c, AddOp(uid, spec, overwrite, now)).1.Done?
    ensures var d := After(k, c, AddOp(uid, spec, overwrite, now)).0;
            && uid in d.ids && d.ids[uid] in d.entries && k.parse(spec).Some?
            && (d.entries[d.ids[uid]] == k.parse(spec).value
                <==> uid !in c.ids || c.entries[c.ids[uid]] == k.parse(spec).value)
  {
  }

  /** On a free lock, an overwriting add gets stuck exactly when it meets an entry that next fires
      at another time: the replacement acquires the lock it holds. */
  lemma ReplaceBlocksIff<S>(k: Clockwork<S>, c: Index<S>, uid: Uid, spec: string, now: int)
    requires Agrees(c) && !c.locked
    ensures After(k, c, AddOp(uid, spec, true, now)).1.Blocked? <==>
            && uid in c.ids && c.ids[uid] in c.entries && k.parse(spec).Some?
            && k.next(c.entries[c.ids[uid]], now) != k.next(k.parse(spec).value, now)
    ensures After(k, c, AddOp(uid, spec, true, now)).1.Blocked? ==>
              After(k, c, AddOp(uid, spec, true, now)).0 == c.(locked := true)
  {
  }

  /** Otherwise an add fails exactly when the schedule does not parse, or the workspace has an entry
      that may not be overwritten; then nothing has changed. */
  lemma AddFailsIff<S>(k: Clockwork<S>, c: Index<S>, uid: Uid, spec: string, overwrite: bool, now: int)
    requires Agrees(c) && !c.locked
    ensures var (d, r) := After(k, c, AddOp(uid, spec, overwrite, now));
            && (r.Failed? <==> k.parse(spec).None? || (uid in c.ids && !overwrite))
            && (r.Failed? ==> d == c)
            && (r.Done? && uid !in c.ids ==> d.ids.Keys == c.ids.Keys + {uid})
            && (r.Done? && uid in c.ids ==> d == c)
  {
  }

  /** From then on every operation on this index, for any workspace, waits for ever and the index
      never changes again. */
  lemma {:induction false} BlockedForever<S>(k: Clockwork<S>, c: Index<S>, ops: seq<Op>, op: Op)
    requires Agrees(c) && c.locked
    ensures AfterAll(k, c, ops) == c && After(k, AfterAll(k, c, ops), op) == (c, Blocked)
  {
    if ops != [] {
      BlockedForever(k, c, ops[..|ops| - 1], ops[|ops| - 1]);
    }
  }

  /** A removed workspace has no entry, until it is added again. */
  lemma {:induction false} RemovedStaysOut<S>(k: Clockwork<S>, c: Index<S>, uid: Uid, ops: seq<Op>)
    requires Agrees(c) && uid !in c.ids
    requires forall i | 0 <= i < |ops| :: ops[i].AddOp? ==> ops[i].uid != uid
    ensures uid !in AfterAll(k, c, ops).ids
  {
    if ops != [] {
      RemovedStaysOut(k, c, uid, ops[..|ops| - 1]);
      hide Agrees;
      assert ops[|ops| - 1].AddOp? ==> ops[|ops| - 1].uid != uid;
    }
  }
}
