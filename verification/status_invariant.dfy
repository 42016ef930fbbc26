/** The inductive invariant of the status-alert protocol, and the one kind of write that can break it. */
module StatusInvariant {
  import opened AlertData
  import opened AlertsStore
  import opened StatusProtocol

  type Systems = map<SystemId, System>
  type Timers = map<AlertId, Timer>

  /** Schema facts: required fields and foreign keys. */
  ghost predicate TablesOk(systems: Systems, rows: Rows) {
    && (forall sid | sid in systems :: sid != "" && systems[sid].host != "")
    && (forall id | id in rows :: id != "" && rows[id].system in systems)
  }

  /** The manager remembers the stored status, and knows every system that is not paused. */
  ghost predicate RegistryOk(systems: Systems, registry: map<SystemId, Entry>) {
    && (forall sid | sid in registry :: sid in systems && registry[sid].status == systems[sid].status)
    && (forall sid | sid in systems && systems[sid].status != Paused :: sid in registry)
  }

  /** A timer of an existing alert: a Status alert, untriggered, of a system that is down. */
  ghost predicate TimersOk(systems: Systems, rows: Rows, timers: Timers) {
    && (forall id | id in timers :: timers[id].alert.id == id)
    && (forall id | id in timers && id in rows ::
          && rows[id].name == STATUS && !rows[id].triggered
          && timers[id].alert.systemId == rows[id].system
          && rows[id].system in systems && systems[rows[id].system].status == Down)
  }

  ghost predicate TriggeredOk(systems: Systems, rows: Rows) {
    forall id | id in rows && rows[id].name == STATUS && rows[id].triggered ::
      rows[id].system in systems && systems[rows[id].system].status == Down
  }

  ghost predicate Inv(s: State) {
    && TablesOk(s.systems, s.rows)
    && RegistryOk(s.systems, s.registry)
    && Synced(s.store, s.rows)
    && TimersOk(s.systems, s.rows, s.timers)
    && TriggeredOk(s.systems, s.rows)
  }

  /** The guard for a write that moves a system from down straight to pending: no timer is running
      for its alerts and, if an agent connection is attached, none of its Status alerts is triggered. */
  ghost predicate SafeWrite(s: State, sid: SystemId, status: Status) {
    sid in s.systems && s.systems[sid].status == Down && status == Pending ==>
      && (forall id | id in s.timers && id in s.rows :: s.rows[id].system != sid)
      && (sid in s.registry && s.registry[sid].connected ==>
            forall id | id in s.rows && s.rows[id].system == sid && s.rows[id].name == STATUS :: !s.rows[id].triggered)
  }

  ghost predicate Safe(s: State, e: Event) {
    e.StatusWrite? ==> SafeWrite(s, e.sid, e.status)
  }

  // ---------------------------------------------------------------- effects of the loops

  ghost function Elems<T>(xs: seq<T>): set<T> {
    set x | x in xs
  }

  ghost function IdsOf(alerts: set<CachedAlert>): set<AlertId> {
    set a | a in alerts :: a.id
  }

  ghost function Projections(rows: Rows, ids: seq<AlertId>): set<CachedAlert>
    requires forall id | id in ids :: id in rows
  {
    set id | id in ids :: Project(id, rows[id])
  }

  /** The rows a write of "pending" clears: none while an agent connection is attached. */
  ghost function ClearedByPending(s: State, sid: SystemId): set<AlertId> {
    if sid in s.registry && s.registry[sid].connected then {} else TriggeredOf(s.rows, sid)
  }

  /** `after` is `before`, except that the triggered flag of the rows in `ids` is cleared. */
  ghost predicate Cleared(before: Rows, after: Rows, ids: set<AlertId>) {
    && after.Keys == before.Keys
    && (forall id | id in before ::
          after[id] == if id in ids then before[id].(triggered := false) else before[id])
  }

  lemma SaveKeepsSynced(s: State, id: AlertId, row: AlertRecord)
    requires TablesOk(s.systems, s.rows) && Synced(s.store, s.rows) && row.system in s.systems
    requires id in s.rows ==> s.rows[id].system == row.system
    ensures Synced(SaveAlert(s, id, row).store, SaveAlert(s, id, row).rows)
  {
    UpdateKeepsSynced(s.store, s.rows, id, row);
  }

  lemma SetTriggeredEffect(s: State, id: AlertId, triggered: bool)
    requires TablesOk(s.systems, s.rows) && Synced(s.store, s.rows) && id in s.rows
    ensures
      var t := SetTriggered(s, id, triggered);
      && TablesOk(t.systems, t.rows) && Synced(t.store, t.rows)
      && t == s.(rows := t.rows, store := t.store)
      && t.rows == s.rows[id := s.rows[id].(triggered := triggered)]
  {
    SaveKeepsSynced(s, id, s.rows[id].(triggered := triggered));
  }

  lemma {:induction false} DeactivateEffect(s: State, ids: seq<AlertId>)
    requires forall id | id in ids :: id in s.rows
    requires TablesOk(s.systems, s.rows) && Synced(s.store, s.rows)
    ensures
      var t := DeactivateAlerts(s, ids);
      && TablesOk(t.systems, t.rows) && Synced(t.store, t.rows)
      && t == s.(rows := t.rows, store := t.store)
      && Cleared(s.rows, t.rows, Elems(ids))
    decreases |ids|
  {
    hide Synced, TablesOk, SetTriggered;
    if ids != [] {
      SetTriggeredEffect(s, ids[0], false);
      DeactivateEffect(SetTriggered(s, ids[0], false), ids[1..]);
    }
  }

  /** Snapshots handed to the up and down handlers, in the order they are visited. */
  ghost predicate Current(s: State, alerts: seq<CachedAlert>, sid: SystemId) {
    && (forall a | a in alerts :: a.id in s.rows && a == Project(a.id, s.rows[a.id])
                                  && s.rows[a.id].system == sid && s.rows[a.id].name == STATUS)
    && (forall i, j | 0 <= i < j < |alerts| :: alerts[i].id != alerts[j].id)
  }

  ghost function Ids(alerts: seq<CachedAlert>): set<AlertId> {
    set a | a in alerts :: a.id
  }

  /** `t` is `s` with timers added for the given alerts only, each due its full delay from now. */
  ghost predicate TimersAdded(s: State, t: State, alerts: set<CachedAlert>) {
    && t.timers.Keys == s.timers.Keys + IdsOf(alerts)
    && (forall id | id in s.timers :: t.timers[id] == s.timers[id])
    && (forall id | id in t.timers && id !in s.timers ::
          var a := t.timers[id].alert; a in alerts && a.id == id && t.timers[id].due == s.now + Minutes(a) * MINUTE)
  }

  lemma {:induction false} DownEffect(s: State, alerts: seq<CachedAlert>)
    ensures
      var t := HandleSystemDown(s, alerts);
      && t == s.(timers := t.timers, log := t.log)
      && TimersAdded(s, t, Elems(alerts))
    decreases |alerts|
  {
    if alerts != [] {
      var s1 := Schedule(s, alerts[0]);
      assert TimersAdded(s, s1, {alerts[0]}) && s1 == s.(timers := s1.timers, log := s1.log);
      DownEffect(s1, alerts[1..]);
      hide Schedule;
      assert Elems(alerts) == {alerts[0]} + Elems(alerts[1..]);
      TimersAddedTrans(s, s1, HandleSystemDown(s, alerts), {alerts[0]}, Elems(alerts[1..]));
    }
  }

  lemma TimersAddedTrans(s: State, t: State, u: State, xs: set<CachedAlert>, ys: set<CachedAlert>)
    requires TimersAdded(s, t, xs) && TimersAdded(t, u, ys) && t.now == s.now
    ensures TimersAdded(s, u, xs + ys)
  {}

  lemma UpOneEffect(s: State, a: CachedAlert)
    requires TablesOk(s.systems, s.rows) && Synced(s.store, s.rows) && a.id in s.rows
    requires a == Project(a.id, s.rows[a.id])
    ensures
      var t := HandleOneUp(s, a);
      && t == s.(rows := t.rows, store := t.store, timers := t.timers, log := t.log)
      && TablesOk(t.systems, t.rows) && Synced(t.store, t.rows)
      && t.timers == s.timers - {a.id}
      && Cleared(s.rows, t.rows, {a.id} - s.timers.Keys)
  {
    if a.id !in s.timers && a.triggered {
      SetTriggeredEffect(s, a.id, false);
    }
  }

  lemma {:induction false} UpEffect(s: State, alerts: seq<CachedAlert>, sid: SystemId)
    requires TablesOk(s.systems, s.rows) && Synced(s.store, s.rows) && Current(s, alerts, sid)
    ensures
      var t := HandleSystemUp(s, alerts);
      && t == s.(rows := t.rows, store := t.store, timers := t.timers, log := t.log)
      && TablesOk(t.systems, t.rows) && Synced(t.store, t.rows)
      && t.timers == s.timers - Ids(alerts)
      && Cleared(s.rows, t.rows, Ids(alerts) - s.timers.Keys)
    decreases |alerts|
  {
    hide Synced, TablesOk, HandleOneUp;
    if alerts != [] {
      var a, rest := alerts[0], alerts[1..];
      UpOneEffect(s, a);
      CurrentTail(s, HandleOneUp(s, a), alerts, sid);
      UpEffect(HandleOneUp(s, a), rest, sid);
      assert Ids(alerts) == {a.id} + Ids(rest);
    }
  }

  lemma CurrentTail(s: State, t: State, alerts: seq<CachedAlert>, sid: SystemId)
    requires alerts != [] && Current(s, alerts, sid) && Cleared(s.rows, t.rows, {alerts[0].id} - s.timers.Keys)
    ensures Current(t, alerts[1..], sid) && alerts[0].id !in Ids(alerts[1..])
  {
    var rest := alerts[1..];
    forall b | b in rest ensures b.id != alerts[0].id && b in alerts {
      var i :| 0 <= i < |rest| && rest[i] == b;
      assert alerts[i + 1] == b;
    }
  }

  lemma {:induction false} RestoreEffect(s: State, ids: seq<AlertId>)
    requires Synced(s.store, s.rows)
    requires forall id | id in ids :: id in s.rows
    ensures
      var t := RestorePending(s, ids);
      && t == s.(timers := t.timers, log := t.log)
      && TimersAdded(s, t, Projections(s.rows, ids))
    decreases |ids|
  {
    if ids != [] {
      var (ok, a) := Lookup(s.store, s.rows[ids[0]].system, ids[0]);
      assert ok && a == Project(ids[0], s.rows[ids[0]]);
      var s1 := Schedule(s, a);
      assert TimersAdded(s, s1, {a}) && s1 == s.(timers := s1.timers, log := s1.log);
      hide Schedule, Synced, Lookup;
      RestoreEffect(s1, ids[1..]);
      var all, tail := Projections(s.rows, ids), Projections(s.rows, ids[1..]);
      assert all == {a} + tail;
      TimersAddedTrans(s, s1, RestorePending(s, ids), {a}, tail);
    }
  }

  /** On an agreeing cache, the alerts listed for a system are exactly its Status rows. */
  lemma ListedAreStatusRows(s: State, sid: SystemId, alerts: seq<CachedAlert>)
    requires Synced(s.store, s.rows) && Lists(alerts, StatusShelf(s, sid))
    ensures Current(s, alerts, sid)
    ensures Ids(alerts) == set id | id in s.rows && s.rows[id].system == sid && s.rows[id].name == STATUS
  {
    SyncedLoadIsExact(s.store, s.rows, sid);
    var shelf := StatusShelf(s, sid);
    assert shelf == OfName(RowsOf(s.rows, sid), STATUS);
    forall id | id in s.rows && s.rows[id].system == sid && s.rows[id].name == STATUS
      ensures id in Ids(alerts)
    {
      assert id in shelf && shelf[id] in alerts;
    }
  }

  // ---------------------------------------------------------------- status writes

  lemma NotedEffect(s: State, sid: SystemId, status: Status)
    requires TablesOk(s.systems, s.rows) && RegistryOk(s.systems, s.registry) && sid in s.systems
    ensures
      var t := Noted(s, sid, status);
      && t == s.(systems := t.systems, registry := t.registry, log := t.log)
      && t.systems == s.systems[sid := s.systems[sid].(status := status)]
      && t.registry.Keys == s.registry.Keys
      && (sid in s.registry ==> t.registry[sid].connected == s.registry[sid].connected)
      && TablesOk(t.systems, t.rows)
      && (sid in s.registry || status == Paused ==> RegistryOk(t.systems, t.registry))
      && (sid !in s.registry ==> s.systems[sid].status == Paused)
      && Remembered(s, sid) == (if sid in s.registry then s.systems[sid].status else Pending)
  {}

  /** Registering the system again repairs the registry whether or not it was known before. */
  lemma RegisteredEffect(s: State, sid: SystemId, status: Status)
    requires TablesOk(s.systems, s.rows) && RegistryOk(s.systems, s.registry) && sid in s.systems
    ensures
      var t := Noted(s, sid, status);
      var u := AddRecord(t, sid, false);
      u == t.(registry := u.registry) && RegistryOk(u.systems, u.registry)
  {
    var t := Noted(s, sid, status);
    hide RegistryOk;
    assert t.systems[sid].host != "" && sid != "";
    hide TablesOk;
    ReRegistered(s.systems, t.systems, s.registry, AddRecord(t, sid, false).registry, sid);
    hide Noted;
  }

  lemma ReRegistered(
    systems: Systems, systems': Systems, registry: map<SystemId, Entry>, registry': map<SystemId, Entry>, sid: SystemId)
    requires RegistryOk(systems, registry) && systems'.Keys == systems.Keys + {sid}
    requires forall x | x in systems && x != sid :: systems'[x] == systems[x]
    requires registry'.Keys == registry.Keys + {sid} && registry'[sid].status == systems'[sid].status
    requires forall x | x in registry && x != sid :: registry'[x].status == registry[x].status
    ensures RegistryOk(systems', registry')
  {}

  /** What a status change may do to rows and timers without endangering the invariant: as a rule the
      system's timers and triggered flags go; only a system that is down may keep them. */
  lemma AfterWrite(s: State, t: State, sid: SystemId, status: Status, cleared: set<AlertId>)
    requires TimersOk(s.systems, s.rows, s.timers) && TriggeredOk(s.systems, s.rows) && sid in s.systems
    requires t.systems == s.systems[sid := s.systems[sid].(status := status)] && Cleared(s.rows, t.rows, cleared)
    requires forall id | id in t.timers :: id in s.timers && t.timers[id] == s.timers[id]
    requires status == Down
      || forall id | id in s.rows && s.rows[id].system == sid ::
           id !in t.timers && (s.rows[id].name == STATUS ==> !t.rows[id].triggered)
    ensures TimersOk(t.systems, t.rows, t.timers) && TriggeredOk(t.systems, t.rows)
  {}

  lemma PausedKeepsInv(s: State, sid: SystemId, ids: seq<AlertId>)
    requires Inv(s) && sid in s.systems && ListsIds(ids, TriggeredOf(s.rows, sid))
    ensures Inv(OnPaused(Noted(s, sid, Paused), sid, ids))
  {
    var r := Noted(s, sid, Paused);
    var t := OnPaused(r, sid, ids);
    NotedEffect(s, sid, Paused);
    hide Noted, Synced, TablesOk, RegistryOk;
    DeactivateEffect(r, ids);
    hide DeactivateAlerts;
    PausedClears(s, t, sid, ids);
    AfterWrite(s, t, sid, Paused, Elems(ids));
    hide TimersOk, TriggeredOk, Cleared, Elems, ListsIds, TriggeredOf;
  }

  lemma PausedClears(s: State, t: State, sid: SystemId, ids: seq<AlertId>)
    requires TimersOk(s.systems, s.rows, s.timers) && ListsIds(ids, TriggeredOf(s.rows, sid))
    requires Cleared(s.rows, t.rows, Elems(ids)) && t.timers == CancelPendingStatusAlerts(s, sid).timers
    ensures forall id | id in s.rows && s.rows[id].system == sid :: id !in t.timers && !t.rows[id].triggered
  {}

  lemma PendingEffect(s: State, sid: SystemId, ids: seq<AlertId>)
    requires TablesOk(s.systems, s.rows) && RegistryOk(s.systems, s.registry) && Synced(s.store, s.rows)
    requires sid in s.systems && ListsIds(ids, TriggeredOf(s.rows, sid))
    ensures
      var t := OnPending(Noted(s, sid, Pending), sid, ids);
      && TablesOk(t.systems, t.rows) && RegistryOk(t.systems, t.registry) && Synced(t.store, t.rows)
      && t.timers == s.timers && t.systems == s.systems[sid := s.systems[sid].(status := Pending)]
      && Cleared(s.rows, t.rows,
                 ClearedByPending(s, sid))
  {
    var r := Noted(s, sid, Pending);
    NotedEffect(s, sid, Pending);
    RegisteredEffect(s, sid, Pending);
    hide Noted, Synced, TablesOk, RegistryOk, AddRecord, DeactivateAlerts;
    if !(sid in r.registry && r.registry[sid].connected) {
      DeactivateEffect(AddRecord(r, sid, false), ids);
      assert Elems(ids) == TriggeredOf(s.rows, sid);
    }
  }

  /** A write of "pending" keeps the invariant if and only if the guard held before it. */
  lemma PendingWriteIff(s: State, sid: SystemId, ids: seq<AlertId>)
    requires Inv(s) && sid in s.systems && ListsIds(ids, TriggeredOf(s.rows, sid))
    ensures Inv(OnPending(Noted(s, sid, Pending), sid, ids)) <==> SafeWrite(s, sid, Pending)
  {
    var t := OnPending(Noted(s, sid, Pending), sid, ids);
    PendingEffect(s, sid, ids);
    PendingFlags(s, t, sid);
    hide Noted, OnPending, Synced, TablesOk, RegistryOk, ListsIds, TriggeredOf, TimersOk, TriggeredOk, Cleared,
      SafeWrite;
  }

  lemma PendingFlags(s: State, t: State, sid: SystemId)
    requires TimersOk(s.systems, s.rows, s.timers) && TriggeredOk(s.systems, s.rows) && sid in s.systems
    requires t.timers == s.timers && t.systems == s.systems[sid := s.systems[sid].(status := Pending)]
    requires Cleared(s.rows, t.rows, ClearedByPending(s, sid))
    ensures SafeWrite(s, sid, Pending) <==>
            TimersOk(t.systems, t.rows, t.timers) && TriggeredOk(t.systems, t.rows)
  {
    if SafeWrite(s, sid, Pending) {
      AfterWrite(s, t, sid, Pending, ClearedByPending(s, sid));
    } else if id :| id in s.timers && id in s.rows && s.rows[id].system == sid {
      assert id in t.timers && id in t.rows && t.rows[id].system == sid;
    } else {
      var id :| id in s.rows && s.rows[id].system == sid && s.rows[id].name == STATUS && s.rows[id].triggered;
      assert t.rows[id] == s.rows[id];
    }
  }

  /** Loading a shelf changes neither the rows nor the agreement of the cache with them. */
  lemma LoadEffect(s: State, sid: SystemId)
    requires Synced(s.store, s.rows)
    ensures
      var t := LoadShelf(s, sid);
      && t == s.(store := t.store) && Synced(t.store, t.rows)
      && LoadShelf(t, sid) == t && StatusShelf(t, sid) == StatusShelf(s, sid)
  {
    SyncedLoadIsExact(s.store, s.rows, sid);
  }

  lemma DownKeepsInv(s: State, sid: SystemId, alerts: seq<CachedAlert>)
    requires Inv(s) && sid in s.systems && Lists(alerts, StatusShelf(s, sid))
    ensures Inv(OnActive(Noted(s, sid, Down), sid, Down, Remembered(s, sid), alerts))
  {
    var r := Noted(s, sid, Down);
    NotedEffect(s, sid, Down);
    RegisteredEffect(s, sid, Down);
    AfterWrite(s, r, sid, Down, {});
    if sid in s.registry && s.systems[sid].status == Up {
      ListedAreStatusRows(s, sid, alerts);
      ScheduledKeepsInv(r, sid, alerts);
    }
    hide Noted, Synced, TablesOk, RegistryOk, TimersOk, TriggeredOk, AddRecord, LoadShelf, HandleSystemDown, Lists,
      StatusShelf;
  }

  lemma ScheduledKeepsInv(r: State, sid: SystemId, alerts: seq<CachedAlert>)
    requires Inv(r) && sid in r.systems && r.systems[sid].status == Down
    requires Current(r, alerts, sid) && forall a | a in alerts :: !a.triggered
    ensures Inv(HandleSystemDown(LoadShelf(r, sid), alerts))
  {
    LoadEffect(r, sid);
    DownEffect(LoadShelf(r, sid), alerts);
    hide Synced, TablesOk, RegistryOk, TriggeredOk, LoadShelf, HandleSystemDown;
    TimersForDown(r, HandleSystemDown(LoadShelf(r, sid), alerts).timers, alerts, sid);
    hide TimersOk, TimersAdded, Current;
  }

  lemma TimersForDown(r: State, timers: Timers, alerts: seq<CachedAlert>, sid: SystemId)
    requires sid in r.systems && r.systems[sid].status == Down && TimersOk(r.systems, r.rows, r.timers)
    requires Current(r, alerts, sid) && (forall a | a in alerts :: !a.triggered)
    requires forall id | id in timers ::
      if id in r.timers then timers[id] == r.timers[id] else timers[id].alert.id == id && timers[id].alert in alerts
    ensures TimersOk(r.systems, r.rows, timers)
  {}

  lemma UpKeepsInv(s: State, sid: SystemId, alerts: seq<CachedAlert>)
    requires Inv(s) && sid in s.systems && Lists(alerts, StatusShelf(s, sid))
    ensures Inv(OnActive(Noted(s, sid, Up), sid, Up, Remembered(s, sid), alerts))
  {
    var r := Noted(s, sid, Up);
    NotedEffect(s, sid, Up);
    RegisteredEffect(s, sid, Up);
    LoadEffect(r, sid);
    if sid in s.registry && s.systems[sid].status == Down {
      ListedAreStatusRows(s, sid, alerts);
      ResolvedKeepsInv(s, r, sid, alerts);
    } else {
      AfterWrite(s, r, sid, Up, {});
    }
    hide Noted, Synced, TablesOk, RegistryOk, TimersOk, TriggeredOk, AddRecord, LoadShelf, HandleSystemUp, Lists,
      StatusShelf;
  }

  lemma ResolvedKeepsInv(s: State, r: State, sid: SystemId, alerts: seq<CachedAlert>)
    requires Inv(s) && sid in s.systems && TablesOk(r.systems, r.rows) && RegistryOk(r.systems, r.registry)
    requires r == s.(systems := s.systems[sid := s.systems[sid].(status := Up)], registry := r.registry, log := r.log)
    requires Current(r, alerts, sid)
    requires Ids(alerts) == set id | id in s.rows && s.rows[id].system == sid && s.rows[id].name == STATUS
    ensures Inv(HandleSystemUp(LoadShelf(r, sid), alerts))
  {
    LoadEffect(r, sid);
    UpEffect(LoadShelf(r, sid), alerts, sid);
    hide Synced, TablesOk, RegistryOk, LoadShelf, HandleSystemUp, Current;
    AfterWrite(s, HandleSystemUp(LoadShelf(r, sid), alerts), sid, Up, Ids(alerts) - s.timers.Keys);
    hide TimersOk, TriggeredOk, Cleared;
  }

  // ---------------------------------------------------------------- the other steps

  lemma TimerKeepsInv(s: State, id: AlertId)
    requires Inv(s) && id in s.timers
    ensures Inv(ProcessPendingAlert(s, id))
  {
    var a := s.timers[id].alert;
    if Lookup(s.store, a.systemId, a.id).0 {
      SetTriggeredEffect(s.(timers := s.timers - {id}), id, true);
    }
  }

  lemma SaveKeepsInv(s: State, id: AlertId, row: AlertRecord)
    requires Inv(s)
    requires
      if id in s.rows then
        && row.system == s.rows[id].system && row.name == s.rows[id].name
        && (row.name == STATUS ==> row.triggered == s.rows[id].triggered)
      else id != "" && row.system in s.systems && id !in s.timers && !row.triggered
    ensures Inv(SaveAlert(s, id, row))
  {
    SaveKeepsSynced(s, id, row);
    hide Synced;
  }

  lemma DeleteKeepsInv(s: State, id: AlertId)
    requires Inv(s) && id in s.rows
    ensures Inv(Step(s, DeleteAlert(id)))
  {
    DeleteKeepsSynced(s.store, s.rows, id);
  }

  lemma DeleteSystemKeepsInv(s: State, sid: SystemId)
    requires Inv(s) && sid in s.systems
    ensures Inv(DeleteSystemRow(s, sid))
  {
    DeleteSystemKeepsSynced(s, sid);
    hide Synced;
    var t := DeleteSystemRow(s, sid);
    RowsGone(s, t);
    hide TablesOk, TimersOk, TriggeredOk;
  }

  lemma DeleteSystemKeepsSynced(s: State, sid: SystemId)
    requires Synced(s.store, s.rows)
    ensures Synced(DeleteSystemRow(s, sid).store, DeleteSystemRow(s, sid).rows)
  {}

  lemma RowsGone(s: State, t: State)
    requires TablesOk(s.systems, s.rows) && TimersOk(s.systems, s.rows, s.timers) && TriggeredOk(s.systems, s.rows)
    requires t.timers == s.timers
    requires forall id | id in t.rows :: id in s.rows && t.rows[id] == s.rows[id] && t.rows[id].system in t.systems
    requires forall sid | sid in t.systems :: sid in s.systems && t.systems[sid] == s.systems[sid]
    ensures TablesOk(t.systems, t.rows) && TimersOk(t.systems, t.rows, t.timers) && TriggeredOk(t.systems, t.rows)
  {}

  lemma RestartKeepsInv(s: State, ids: seq<AlertId>)
    requires Inv(s) && ListsIds(ids, set id | id in s.rows && Restorable(s, id))
    ensures Inv(HubRestarts(s, ids))
  {
    PopulatedSynced(s.rows);
    RestoreEffect(Booted(s), ids);
    hide RestorePending, Populated, Synced;
    RestoredTimersOk(s, RestorePending(Booted(s), ids).timers, ids);
    RestartedRegistryOk(s, ids);
    hide TimersAdded, Projections, TimersOk, ListsIds, TriggeredOk, RegistryOk, TablesOk;
  }

  lemma RestartedRegistryOk(s: State, ids: seq<AlertId>)
    requires TablesOk(s.systems, s.rows) && forall id | id in ids :: id in s.rows
    ensures RegistryOk(s.systems, HubRestarts(s, ids).registry)
  {
    hide RestorePending, Booted;
  }

  lemma RestoredTimersOk(s: State, timers: Timers, ids: seq<AlertId>)
    requires ListsIds(ids, set id | id in s.rows && Restorable(s, id))
    requires timers.Keys <= IdsOf(Projections(s.rows, ids))
    requires forall id | id in timers :: timers[id].alert.id == id && timers[id].alert in Projections(s.rows, ids)
    ensures TimersOk(s.systems, s.rows, timers)
  {}

  /** Every step the environment can take keeps the invariant, guarded only for down-to-pending writes. */
  lemma StepKeepsInv(s: State, e: Event)
    requires Inv(s) && Enabled(s, e) && Safe(s, e)
    ensures Inv(Step(s, e))
  {
    hide Inv, Lists, ListsIds, SafeWrite, OnStatusWrite, ProcessPendingAlert, HubRestarts, SaveAlert, DeleteSystemRow;
    match e
    case StatusWrite(sid, status, alerts, ids) => StatusWriteKeepsInv(s, sid, status, alerts, ids);
    case TimerFires(id) => TimerKeepsInv(s, id);
    case Restart(ids) => RestartKeepsInv(s, ids);
    case CreateAlert(id, row) => SaveKeepsInv(s, id, row);
    case EditAlert(id, value, min) => SaveKeepsInv(s, id, s.rows[id].(value := value, min := min));
    case FlagSystemAlert(id, triggered) => FlagKeepsInv(s, id, triggered);
    case DeleteAlert(id) => DeleteKeepsInv(s, id);
    case DeleteSystem(sid) => DeleteSystemKeepsInv(s, sid);
    case CreateSystem(sid, host) => NewSystemKeepsInv(s, sid, host);
    case AgentConnects(sid) => ConnectKeepsInv(s, sid);
    case Tick(_) => QuietKeepsInv(s, e);
    case ConnectionLost(_) => QuietKeepsInv(s, e);
    case PausedSystemRemoved(_) => QuietKeepsInv(s, e);
  }

  lemma FlagKeepsInv(s: State, id: AlertId, triggered: bool)
    requires Inv(s) && id in s.rows && s.rows[id].name != STATUS
    ensures Inv(SetTriggered(s, id, triggered))
  {
    SaveKeepsInv(s, id, s.rows[id].(triggered := triggered));
  }

  lemma NewSystemKeepsInv(s: State, sid: SystemId, host: string)
    requires Inv(s) && sid != "" && host != "" && sid !in s.systems
    ensures Inv(AddRecord(s.(systems := s.systems[sid := System(Pending, host)]), sid, false))
  {
    var t := s.(systems := s.systems[sid := System(Pending, host)]);
    ReRegistered(s.systems, t.systems, s.registry, AddRecord(t, sid, false).registry, sid);
    hide Synced, RegistryOk;
  }

  lemma ConnectKeepsInv(s: State, sid: SystemId)
    requires Inv(s) && sid in s.systems
    ensures Inv(AddRecord(s, sid, true))
  {
    ReRegistered(s.systems, s.systems, s.registry, AddRecord(s, sid, true).registry, sid);
    hide Synced, RegistryOk, TimersOk, TriggeredOk;
  }

  lemma QuietKeepsInv(s: State, e: Event)
    requires Inv(s) && Enabled(s, e) && (e.Tick? || e.ConnectionLost? || e.PausedSystemRemoved?)
    ensures Inv(Step(s, e))
  {
    hide Synced, TablesOk, TimersOk, TriggeredOk;
  }

  lemma StatusWriteKeepsInv(s: State, sid: SystemId, status: Status, alerts: seq<CachedAlert>, ids: seq<AlertId>)
    requires Inv(s) && sid in s.systems && SafeWrite(s, sid, status)
    requires Lists(alerts, StatusShelf(s, sid)) && ListsIds(ids, TriggeredOf(s.rows, sid))
    ensures Inv(OnStatusWrite(s, sid, status, alerts, ids))
  {
    hide Inv, Lists, OnPaused, OnPending, OnActive, Noted;
    match status
    case Up => UpKeepsInv(s, sid, alerts);
    case Down => DownKeepsInv(s, sid, alerts);
    case Paused => PausedKeepsInv(s, sid, ids);
    case Pending => PendingWriteIff(s, sid, ids);
  }

  // ---------------------------------------------------------------- runs

  /** `states` is a run: it starts at a fresh hub and takes one enabled, guarded event at a time. */
  ghost predicate Run(states: seq<State>, events: seq<Event>) {
    && |states| == |events| + 1
    && (exists now :: states[0] == Initial(now))
    && (forall i | 0 <= i < |events| ::
          Enabled(states[i], events[i]) && Safe(states[i], events[i]) && states[i + 1] == Step(states[i], events[i]))
  }

  lemma {:induction false} RunKeepsInv(states: seq<State>, events: seq<Event>, k: nat)
    requires Run(states, events) && k < |states|
    ensures Inv(states[k])
  {
    if k > 0 {
      RunKeepsInv(states, events, k - 1);
      StepKeepsInv(states[k - 1], events[k - 1]);
    }
  }

  /** The mutual invariant, over every run: a timer of an existing alert means its system is down and
      the alert untriggered; a triggered Status alert means its system is down. */
  lemma PendingAndTriggeredMeanDown(states: seq<State>, events: seq<Event>, k: nat, id: AlertId)
    requires Run(states, events) && k < |states|
    requires id in states[k].rows && states[k].rows[id].name == STATUS
    ensures
      var s := states[k];
      && s.rows[id].system in s.systems
      && (id in s.timers ==> s.systems[s.rows[id].system].status == Down && !s.rows[id].triggered)
      && (s.rows[id].triggered ==> s.systems[s.rows[id].system].status == Down)
  {
    RunKeepsInv(states, events, k);
  }

  /** After a restart the timers are exactly the untriggered Status alerts of down systems, each due a
      full delay later; so whatever was pending before the restart is pending again. */
  lemma RestartRecovers(s: State, ids: seq<AlertId>)
    requires Inv(s) && Enabled(s, Restart(ids))
    ensures
      var t := Step(s, Restart(ids));
      && (forall id :: id in t.timers <==> id in s.rows && Restorable(s, id))
      && (forall id | id in t.timers ::
            t.timers[id].due == s.now + Minutes(Project(id, s.rows[id])) * MINUTE)
      && (forall id | id in s.timers && id in s.rows :: id in t.timers)
  {
    PopulatedSynced(s.rows);
    RestoreEffect(Booted(s), ids);
    assert forall id | id in s.timers && id in s.rows :: Restorable(s, id);
    hide Synced, RestorePending, Populated, Inv, Restorable;
    RestoredExactly(s, RestorePending(Booted(s), ids), ids);
    hide TimersAdded;
  }

  lemma RestoredExactly(s: State, t: State, ids: seq<AlertId>)
    requires ListsIds(ids, set id | id in s.rows && Restorable(s, id))
    requires TimersAdded(Booted(s), t, Projections(s.rows, ids))
    ensures forall id :: id in t.timers <==> id in s.rows && Restorable(s, id)
    ensures forall id | id in t.timers :: t.timers[id].due == s.now + Minutes(Project(id, s.rows[id])) * MINUTE
  {
    hide Restorable;
    forall id | id in s.rows && Restorable(s, id) ensures id in t.timers {
      assert Project(id, s.rows[id]) in Projections(s.rows, ids);
    }
  }

  /** When a system goes from up to down every one of its Status alerts becomes pending. */
  lemma GoingDownSchedulesAll(s: State, sid: SystemId, alerts: seq<CachedAlert>, ids: seq<AlertId>)
    requires Inv(s) && Enabled(s, StatusWrite(sid, Down, alerts, ids)) && s.systems[sid].status == Up
    ensures
      var t := Step(s, StatusWrite(sid, Down, alerts, ids));
      forall id | id in s.rows && s.rows[id].system == sid && s.rows[id].name == STATUS ::
        id in t.timers && t.timers[id].due == s.now + Minutes(Project(id, s.rows[id])) * MINUTE
  {
    hide Synced, TablesOk, HandleSystemDown, Lists, StatusShelf, ListsIds, Loaded;
    var r := Noted(s, sid, Down);
    NotedEffect(s, sid, Down);
    ListedAreStatusRows(s, sid, alerts);
    DownEffect(LoadShelf(r, sid), alerts);
    hide Noted, RegistryOk;
    forall id | id in s.rows && s.rows[id].system == sid && s.rows[id].name == STATUS
      ensures id in Ids(alerts) && id !in s.timers
    {}
  }
}
