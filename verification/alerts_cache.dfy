/** The in-memory alerts cache of the hub (internal/alerts/alerts_cache.go): the record type, the
    store as a pure value with its laws, and the mutable cache object refined against it. */
module AlertData {

  type SystemId = string
  type AlertId = string

  const STATUS := "Status"

  /** A row of the `alerts` collection. */
  datatype AlertRecord = AlertRecord(
    system: SystemId, user: string, name: string, value: real, triggered: bool, min: int)

  /** The cached projection of a row; `min` is an unsigned byte. */
  datatype CachedAlert = CachedAlert(
    id: AlertId, systemId: SystemId, userId: string, name: string, value: real, triggered: bool, min: nat)

  type Rows = map<AlertId, AlertRecord>

  /** Conversion of a row into its cached form: the minute count is truncated to 8 bits. */
  function Project(id: AlertId, row: AlertRecord): CachedAlert {
    CachedAlert(id, row.system, row.user, row.name, row.value, row.triggered, row.min % 256)
  }
}

module AlertsStore {
  import opened AlertData

  type Shelf = map<AlertId, CachedAlert>
  type Store = map<SystemId, Shelf>

  /** The rows of one system, projected. */
  function RowsOf(rows: Rows, sid: SystemId): Shelf {
    map id | id in rows && rows[id].system == sid :: Project(id, rows[id])
  }

  function Updated(store: Store, id: AlertId, row: AlertRecord): Store {
    if row.system == "" then store
    else
      var shelf := if row.system in store then store[row.system] else map[];
      store[row.system := shelf[id := Project(id, row)]]
  }

  function Deleted(store: Store, id: AlertId, row: AlertRecord): Store {
    if row.system == "" || row.system !in store then store
    else store[row.system := store[row.system] - {id}]
  }

  /** The shelf is fetched from the table only when the system is absent from the store. */
  function Loaded(store: Store, rows: Rows, sid: SystemId): Store {
    if sid in store then store else store[sid := RowsOf(rows, sid)]
  }

  /** The store right after a full population. */
  function Populated(rows: Rows): Store {
    var present := set id | id in rows && rows[id].system != "" :: rows[id].system;
    map sid | sid in present :: RowsOf(rows, sid)
  }

  function Lookup(store: Store, sid: SystemId, id: AlertId): (bool, CachedAlert) {
    if sid in store && id in store[sid] then (true, store[sid][id])
    else (false, CachedAlert("", "", "", "", 0.0, false, 0))
  }

  /** Every cached entry is the projection of the row it stands for. */
  ghost predicate Sound(store: Store, rows: Rows) {
    forall sid, id | sid in store && id in store[sid] ::
      id in rows && rows[id].system == sid && store[sid][id] == Project(id, rows[id])
  }

  /** Every row is cached on the shelf of its system; in particular that shelf exists. */
  ghost predicate Complete(store: Store, rows: Rows) {
    forall id | id in rows :: rows[id].system in store && id in store[rows[id].system]
  }

  ghost predicate Synced(store: Store, rows: Rows) {
    Sound(store, rows) && Complete(store, rows)
  }

  /** The relation field is required by the schema, so no row has an empty system. */
  ghost predicate HaveSystems(rows: Rows) {
    forall id | id in rows :: rows[id].system != ""
  }

  lemma PopulatedSynced(rows: Rows)
    requires HaveSystems(rows)
    ensures Synced(Populated(rows), rows)
  {
    forall id | id in rows
      ensures rows[id].system in Populated(rows) && id in Populated(rows)[rows[id].system]
    {
      assert id in RowsOf(rows, rows[id].system);
    }
  }

  /** Once the cache agrees with the table, a lookup by system answers with exactly the rows of that
      system, whether its shelf is present or has to be fetched. */
  lemma SyncedLoadIsExact(store: Store, rows: Rows, sid: SystemId)
    requires Synced(store, rows)
    ensures Loaded(store, rows, sid)[sid] == RowsOf(rows, sid)
    ensures Synced(Loaded(store, rows, sid), rows)
  {
    var shelf := Loaded(store, rows, sid)[sid];
    assert shelf.Keys == RowsOf(rows, sid).Keys by {
      forall id | id in RowsOf(rows, sid) ensures id in shelf { assert rows[id].system == sid; }
    }
  }

  /** The update hook keeps agreement when a row is inserted, or rewritten without moving system. */
  lemma UpdateKeepsSynced(store: Store, rows: Rows, id: AlertId, row: AlertRecord)
    requires Synced(store, rows) && row.system != ""
    requires id in rows ==> rows[id].system == row.system
    ensures Synced(Updated(store, id, row), rows[id := row])
  {}

  lemma DeleteKeepsSynced(store: Store, rows: Rows, id: AlertId)
    requires Synced(store, rows) && HaveSystems(rows) && id in rows
    ensures Synced(Deleted(store, id, rows[id]), rows - {id})
  {}

  /** The converse: an update that moves an alert to another system leaves the stale entry behind,
      so agreement survives exactly when the system field does not change. */
  lemma UpdateSyncedIffSystemUnchanged(store: Store, rows: Rows, id: AlertId, row: AlertRecord)
    requires Synced(store, rows) && id in rows && rows[id].system != "" && row.system != ""
    ensures Synced(Updated(store, id, row), rows[id := row]) <==> rows[id].system == row.system
  {
    var was := rows[id].system;
    if was != row.system {
      var after := Updated(store, id, row);
      assert was in after && id in after[was];
      assert rows[id := row][id].system != was;
    } else {
      UpdateKeepsSynced(store, rows, id, row);
    }
  }

  /** Before population, inserting a row for a system answers later lookups correctly exactly when
      the system's shelf was already there or the system had no other rows: on an absent shelf the
      hook creates a shelf with the single new entry, which then hides the older rows. */
  lemma InsertBeforePopulation(store: Store, rows: Rows, id: AlertId, row: AlertRecord)
    requires Sound(store, rows) && id !in rows && row.system != ""
    requires row.system in store ==> store[row.system] == RowsOf(rows, row.system)
    ensures
      var after, rows' := Updated(store, id, row), rows[id := row];
      Loaded(after, rows', row.system)[row.system] == RowsOf(rows', row.system) <==>
      (row.system in store || RowsOf(rows, row.system) == map[])
  {
    var after, rows' := Updated(store, id, row), rows[id := row];
    var old', new' := RowsOf(rows, row.system), RowsOf(rows', row.system);
    assert new' == old'[id := Project(id, row)];
    if row.system !in store {
      assert after[row.system] == map[id := Project(id, row)];
      if old' != map[] {
        var other :| other in old';
        assert other in new' && other !in after[row.system];
      }
    }
  }

  /** `xs` lists the values of `shelf`, each exactly once, in some order. */
  ghost predicate Lists(xs: seq<CachedAlert>, shelf: Shelf) {
    && (forall x | x in xs :: x.id in shelf && shelf[x.id] == x)
    && (forall i, j | 0 <= i < j < |xs| :: xs[i].id != xs[j].id)
    && (forall id | id in shelf :: shelf[id] in xs)
  }

  function OfName(shelf: Shelf, name: string): Shelf {
    map id | id in shelf && shelf[id].name == name :: shelf[id]
  }

  function NotNamed(shelf: Shelf, excluded: set<string>): Shelf {
    map id | id in shelf && shelf[id].name !in excluded :: shelf[id]
  }

  ghost predicate Keyed(shelf: Shelf) {
    forall id | id in shelf :: shelf[id].id == id
  }
}

module AlertsCaching {
  import opened AlertData
  import opened AlertsStore

  /** The `alerts` collection, shared by everything that reads or writes it. */
  class AlertsTable {
    var rows: Rows

    constructor (rows: Rows)
      ensures this.rows == rows
    {
      this.rows := rows;
    }
  }

  class AlertsCache {
    const app: AlertsTable
    var store: Store
    var populated: bool

    ghost predicate Valid()
      reads this
    {
      forall sid | sid in store :: Keyed(store[sid])
    }

    constructor (app: AlertsTable)
      ensures Valid() && this.app == app && store == map[] && !populated
    {
      this.app := app;
      store := map[];
      populated := false;
    }

    /** After-create and after-update hook. */
    method Update(id: AlertId, record: AlertRecord)
      requires Valid()
      modifies this`store
      ensures Valid() && store == Updated(old(store), id, record)
      ensures record.system == "" ==> store == old(store)
      ensures record.system != "" ==>
                && store.Keys == old(store.Keys) + {record.system}
                && (forall sid | sid in store && sid != record.system :: store[sid] == old(store)[sid])
                && store[record.system] ==
                   (if record.system in old(store) then old(store)[record.system] else map[])
                   [id := CachedAlert(id, record.system, record.user, record.name, record.value, record.triggered,
                                      record.min % 256)]
    {
      if record.system == "" {
        return;
      }
      var shelf: Shelf := map[];
      if record.system in store {
        shelf := store[record.system];
      }
      store := store[record.system := shelf[id := Project(id, record)]];
    }

    /** After-delete hook. */
    method Delete(id: AlertId, record: AlertRecord)
      requires Valid()
      modifies this`store
      ensures Valid() && store == Deleted(old(store), id, record) && store.Keys == old(store.Keys)
      ensures forall sid | sid in store :: store[sid] ==
                if sid == record.system && sid != "" then old(store)[sid] - {id} else old(store)[sid]
    {
      if record.system == "" {
        return;
      }
      if record.system in store {
        store := store[record.system := store[record.system] - {id}];
      }
    }

    /** Clears the store and replays every row through the update hook; the order in which the rows
        come back does not matter. */
    method PopulateFromDB(force: bool)
      requires Valid()
      modifies this
      ensures Valid() && populated
      ensures store == if !force && old(populated) then old(store) else Populated(app.rows)
    {
      if !force && populated {
        return;
      }
      var records := app.rows;
      store := map[];
      var todo := records.Keys;
      ReplayNone(records);
      while todo != {}
        invariant todo <= records.Keys && Valid()
        invariant store == Replayed(records, records.Keys - todo)
      {
        var id :| id in todo;
        ReplayStep(records, records.Keys - todo, id);
        Update(id, records[id]);
        assert records.Keys - (todo - {id}) == records.Keys - todo + {id};
        todo := todo - {id};
      }
      assert records.Keys - todo == records.Keys;
      ReplayAll(records);
      populated := true;
    }

    /** Cached alerts of a system, in no particular order. */
    method GetSystemAlerts(sid: SystemId) returns (alerts: seq<CachedAlert>)
      requires Valid()
      modifies this`store
      ensures Valid() && store == Loaded(old(store), app.rows, sid)
      ensures Lists(alerts, store[sid])
    {
      if sid !in store {
        var records := app.rows;
        var shelf: Shelf := map[];
        var todo := set id | id in records && records[id].system == sid;
        ghost var all := todo;
        while todo != {}
          invariant todo <= all
          invariant shelf == map id | id in all - todo :: Project(id, records[id])
        {
          var id :| id in todo;
          shelf := shelf[id := Project(id, records[id])];
          todo := todo - {id};
        }
        assert shelf == RowsOf(records, sid);
        store := store[sid := shelf];
      }
      alerts := Values(store[sid]);
    }

    method GetAlert(sid: SystemId, id: AlertId) returns (alert: CachedAlert, ok: bool)
      ensures (ok, alert) == Lookup(store, sid, id)
      ensures ok == (sid in store && id in store[sid]) && (ok ==> alert == store[sid][id])
    {
      if sid in store && id in store[sid] {
        return store[sid][id], true;
      }
      return CachedAlert("", "", "", "", 0.0, false, 0), false;
    }

    method GetAlertsByName(sid: SystemId, name: string) returns (alerts: seq<CachedAlert>)
      requires Valid()
      modifies this`store
      ensures Valid() && store == Loaded(old(store), app.rows, sid)
      ensures Lists(alerts, OfName(store[sid], name))
      ensures forall x :: x in alerts <==> x.id in store[sid] && x == store[sid][x.id] && x.name == name
    {
      var all := GetSystemAlerts(sid);
      alerts := [];
      for i := 0 to |all|
        invariant forall x :: x in alerts <==> x in all[..i] && x.name == name
        invariant forall k, l | 0 <= k < l < |alerts| :: alerts[k].id != alerts[l].id
      {
        if all[i].name == name {
          forall k | 0 <= k < |alerts| ensures alerts[k].id != all[i].id {
            assert alerts[k] in all[..i];
          }
          alerts := alerts + [all[i]];
        }
        assert all[..i + 1] == all[..i] + [all[i]];
      }
      assert all[..|all|] == all;
    }

    method GetAlertsExcludingNames(sid: SystemId, excluded: set<string>) returns (alerts: seq<CachedAlert>)
      requires Valid()
      modifies this`store
      ensures Valid() && store == Loaded(old(store), app.rows, sid)
      ensures Lists(alerts, NotNamed(store[sid], excluded))
      ensures forall x :: x in alerts <==> x.id in store[sid] && x == store[sid][x.id] && x.name !in excluded
    {
      var all := GetSystemAlerts(sid);
      alerts := [];
      for i := 0 to |all|
        invariant forall x :: x in alerts <==> x in all[..i] && x.name !in excluded
        invariant forall k, l | 0 <= k < l < |alerts| :: alerts[k].id != alerts[l].id
      {
        if all[i].name !in excluded {
          forall k | 0 <= k < |alerts| ensures alerts[k].id != all[i].id {
            assert alerts[k] in all[..i];
          }
          alerts := alerts + [all[i]];
        }
        assert all[..i + 1] == all[..i] + [all[i]];
      }
      assert all[..|all|] == all;
    }

    /** The latest cached copy of a snapshot, looked up under the snapshot's own system. */
    method Refresh(alert: CachedAlert) returns (latest: CachedAlert, ok: bool)
      ensures ok <==> alert.id != "" && alert.systemId in store && alert.id in store[alert.systemId]
      ensures ok ==> latest == store[alert.systemId][alert.id]
    {
      if alert.id == "" {
        return CachedAlert("", "", "", "", 0.0, false, 0), false;
      }
      latest, ok := GetAlert(alert.systemId, alert.id);
    }
  }

  /** Enumerates a shelf by repeatedly removing an arbitrary entry. */
  method Values(shelf: Shelf) returns (xs: seq<CachedAlert>)
    requires Keyed(shelf)
    ensures Lists(xs, shelf)
  {
    xs := [];
    var todo := shelf.Keys;
    while todo != {}
      invariant todo <= shelf.Keys
      invariant forall x | x in xs :: x.id in shelf.Keys - todo && shelf[x.id] == x
      invariant forall i, j | 0 <= i < j < |xs| :: xs[i].id != xs[j].id
      invariant forall id | id in shelf.Keys - todo :: shelf[id] in xs
    {
      var id :| id in todo;
      xs := xs + [shelf[id]];
      todo := todo - {id};
    }
  }

  ghost function Kept(rows: Rows, ids: set<AlertId>): Rows {
    map id | id in ids && id in rows :: rows[id]
  }

  /** The store after the rows of `ids` have been replayed. */
  ghost function Replayed(rows: Rows, ids: set<AlertId>): Store {
    Populated(Kept(rows, ids))
  }

  lemma ReplayNone(rows: Rows)
    ensures Replayed(rows, rows.Keys - rows.Keys) == map[]
  {}

  lemma ReplayAll(rows: Rows)
    ensures Replayed(rows, rows.Keys) == Populated(rows)
  {
    assert Kept(rows, rows.Keys) == rows;
  }

  lemma ReplayStep(rows: Rows, ids: set<AlertId>, id: AlertId)
    requires id in rows && id !in ids
    ensures Replayed(rows, ids + {id}) == Updated(Replayed(rows, ids), id, rows[id])
  {
    assert Kept(rows, ids + {id}) == Kept(rows, ids)[id := rows[id]];
    PopulateWithOneMore(Kept(rows, ids), id, rows[id]);
  }

  /** The cache after the rows have been replayed one by one in the given order. */
  ghost function ReplayedIn(rows: Rows, order: seq<AlertId>): Store
    requires forall id | id in order :: id in rows
  {
    if order == [] then map[]
    else
      var id := order[|order| - 1];
      Updated(ReplayedIn(rows, order[..|order| - 1]), id, rows[id])
  }

  /** Replaying rows one by one, in whatever order the query returns them, populates the cache with exactly
      those rows; with all rows it is a full population. */
  lemma {:induction false} ReplayAnyOrder(rows: Rows, order: seq<AlertId>)
    requires forall id | id in order :: id in rows
    requires forall i, j | 0 <= i < j < |order| :: order[i] != order[j]
    ensures ReplayedIn(rows, order) == Replayed(rows, set id | id in order)
    ensures (forall id | id in rows :: id in order) ==> ReplayedIn(rows, order) == Populated(rows)
  {
    hide Updated, Populated;
    if order == [] {
      assert Kept(rows, {}) == map[];
      NothingPopulated();
    } else {
      var init, last := order[..|order| - 1], order[|order| - 1];
      ReplayAnyOrder(rows, init);
      assert (set id | id in order) == (set id | id in init) + {last};
      ReplayStep(rows, (set id | id in init), last);
    }
    if forall id | id in rows :: id in order {
      assert (set id | id in order) == rows.Keys;
      ReplayAll(rows);
    }
  }

  lemma NothingPopulated()
    ensures Populated(map[]) == map[]
  {}

  lemma RowsOfOneMore(rows: Rows, id: AlertId, row: AlertRecord, sid: SystemId)
    requires id !in rows
    ensures RowsOf(rows[id := row], sid)
            == if sid == row.system then RowsOf(rows, sid)[id := Project(id, row)] else RowsOf(rows, sid)
  {}

  /** The systems that have rows. */
  ghost predicate Present(rows: Rows, sid: SystemId) {
    sid != "" && exists id :: id in rows && rows[id].system == sid
  }

  lemma PopulatedIs(rows: Rows)
    ensures forall sid :: sid in Populated(rows) <==> Present(rows, sid)
    ensures "" !in Populated(rows)
    ensures forall sid | sid in Populated(rows) :: Populated(rows)[sid] == RowsOf(rows, sid)
    ensures forall sid | sid != "" && sid !in Populated(rows) :: RowsOf(rows, sid) == map[]
  {
    forall sid | sid != "" && !Present(rows, sid) ensures RowsOf(rows, sid) == map[] {}
  }

  lemma PresentOneMore(rows: Rows, id: AlertId, row: AlertRecord, sid: SystemId)
    requires id !in rows
    ensures Present(rows[id := row], sid) <==> Present(rows, sid) || (sid == row.system && sid != "")
  {
    var rows' := rows[id := row];
    if Present(rows, sid) {
      var k :| k in rows && rows[k].system == sid;
      assert rows'[k].system == sid;
    }
    assert rows'[id] == row;
  }

  lemma PopulateWithOneMore(rows: Rows, id: AlertId, row: AlertRecord)
    requires id !in rows
    ensures Updated(Populated(rows), id, row) == Populated(rows[id := row])
  {
    var rows' := rows[id := row];
    PopulatedIs(rows);
    PopulatedIs(rows');
    hide Populated, RowsOf, Present;
    forall sid ensures sid in Populated(rows') <==> sid in Populated(rows) || (sid == row.system && sid != "") {
      PresentOneMore(rows, id, row, sid);
    }
    forall sid | sid in Populated(rows')
      ensures sid in Updated(Populated(rows), id, row)
      ensures Updated(Populated(rows), id, row)[sid] == Populated(rows')[sid]
    {
      RowsOfOneMore(rows, id, row, sid);
    }
    assert Updated(Populated(rows), id, row).Keys == Populated(rows').Keys;
  }
}
