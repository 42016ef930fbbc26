/** The hub objects behind the status protocol: maps updated in place by hooks, timers and loops.
    Every method is proved to act on the abstract state as the protocol's function says. */
module StatusHub {
  import opened AlertData
  import opened AlertsStore
  import opened AlertsCaching
  import opened StatusProtocol

  /** The hub embeds the alert manager and owns the system manager; the fields of both are here. */
  class Hub {
    const app: AlertsTable
    const alertsCache: AlertsCache
    var systemsTable: map<SystemId, System>
    var pendingAlerts: map<AlertId, Timer>
    var systems: map<SystemId, Entry>
    var now: nat
    ghost var log: seq<Mark>

    ghost predicate Valid()
      reads this, alertsCache
    {
      alertsCache.app == app && alertsCache.Valid()
    }

    ghost function Now(): State
      reads this, app, alertsCache
    {
      State(now, systemsTable, app.rows, alertsCache.store, systems, pendingAlerts, log)
    }

    constructor (now: nat)
      ensures Valid() && Now() == Initial(now) && fresh(app) && fresh(alertsCache)
    {
      var table := new AlertsTable(map[]);
      app := table;
      alertsCache := new AlertsCache(table);
      systemsTable, pendingAlerts, systems := map[], map[], map[];
      this.now := now;
      log := [];
    }

    // -------------------------------------------------------------- alert manager

    method SetAlertTriggered(alert: CachedAlert, triggered: bool) returns (ok: bool)
      requires Valid()
      modifies app, alertsCache`store
      ensures Valid() && ok == (alert.id in old(app.rows))
      ensures Now() == if ok then SetTriggered(old(Now()), alert.id, triggered) else old(Now())
    {
      if alert.id !in app.rows {
        return false;
      }
      var record := app.rows[alert.id].(triggered := triggered);
      app.rows := app.rows[alert.id := record];
      alertsCache.Update(alert.id, record);
      return true;
    }

    method SendStatusAlert(up: bool, alert: CachedAlert)
      requires Valid()
      modifies app, alertsCache`store, `log
      ensures Valid() && Now() == StatusProtocol.SendStatusAlert(old(Now()), up, alert)
    {
      var ok := SetAlertTriggered(alert, !up);
      if ok {
        log := log + [Sent(up, alert.id, alert.systemId, now)];
      }
    }

    method SchedulePendingStatusAlert(alert: CachedAlert, minutes: nat) returns (scheduled: bool)
      requires minutes == Minutes(alert)
      modifies `pendingAlerts, `log
      ensures Now() == Schedule(old(Now()), alert) && scheduled == (alert.id !in old(pendingAlerts))
    {
      if alert.id in pendingAlerts {
        return false;
      }
      pendingAlerts := pendingAlerts[alert.id := Timer(alert, now + minutes * MINUTE)];
      log := log + [Scheduled(alert.id, alert.systemId, now, alert.min)];
      return true;
    }

    method HandleSystemDown(alerts: seq<CachedAlert>)
      modifies `pendingAlerts, `log
      ensures Now() == StatusProtocol.HandleSystemDown(old(Now()), alerts)
    {
      for i := 0 to |alerts|
        invariant StatusProtocol.HandleSystemDown(Now(), alerts[i..])
                  == StatusProtocol.HandleSystemDown(old(Now()), alerts)
        invariant Now() == old(Now()).(timers := pendingAlerts, log := log)
      {
        assert alerts[i..][1..] == alerts[i + 1..];
        var min := if alerts[i].min < 1 then 1 else alerts[i].min;
        var _ := SchedulePendingStatusAlert(alerts[i], min);
      }
    }

    method CancelPendingAlert(id: AlertId) returns (found: bool)
      modifies `pendingAlerts
      ensures pendingAlerts == old(pendingAlerts) - {id} && found == (id in old(pendingAlerts))
    {
      found := id in pendingAlerts;
      pendingAlerts := pendingAlerts - {id};
    }

    method HandleSystemUp(alerts: seq<CachedAlert>)
      requires Valid()
      modifies app, alertsCache`store, `pendingAlerts, `log
      ensures Valid() && Now() == StatusProtocol.HandleSystemUp(old(Now()), alerts)
    {
      for i := 0 to |alerts|
        invariant Valid()
        invariant StatusProtocol.HandleSystemUp(Now(), alerts[i..]) == StatusProtocol.HandleSystemUp(old(Now()), alerts)
      {
        assert alerts[i..][1..] == alerts[i + 1..];
        ghost var before := Now();
        var cancelled := CancelPendingAlert(alerts[i].id);
        if !cancelled {
          assert pendingAlerts == before.timers;
          if alerts[i].triggered {
            SendStatusAlert(true, alerts[i]);
          }
        }
        assert Now() == HandleOneUp(before, alerts[i]);
      }
    }

    /** Visits the timers in any order while deleting those of the system. */
    method CancelPendingStatusAlerts(sid: SystemId)
      modifies `pendingAlerts
      ensures Now() == StatusProtocol.CancelPendingStatusAlerts(old(Now()), sid)
    {
      var todo := pendingAlerts.Keys;
      while todo != {}
        invariant todo <= old(pendingAlerts.Keys)
        invariant pendingAlerts == map id | id in old(pendingAlerts)
              && (id in todo || old(pendingAlerts)[id].alert.systemId != sid) :: old(pendingAlerts)[id]
      {
        var id :| id in todo;
        if pendingAlerts[id].alert.systemId == sid {
          var _ := CancelPendingAlert(id);
        }
        todo := todo - {id};
      }
    }

    /** The timer callback. */
    method ProcessPendingAlert(id: AlertId)
      requires Valid()
      modifies app, alertsCache`store, `pendingAlerts, `log
      ensures Valid() && Now() == StatusProtocol.ProcessPendingAlert(old(Now()), id)
    {
      if id !in pendingAlerts {
        return;
      }
      var info := pendingAlerts[id];
      pendingAlerts := pendingAlerts - {id};
      var latest, ok := alertsCache.Refresh(info.alert);
      if !ok || latest.triggered {
        return;
      }
      SendStatusAlert(false, latest);
    }

    method HandleStatusAlerts(status: Status, sid: SystemId) returns (ghost alerts: seq<CachedAlert>)
      requires Valid() && (status == Up || status == Down)
      modifies app, alertsCache`store, `pendingAlerts, `log
      ensures Valid() && Lists(alerts, StatusShelf(old(Now()), sid))
      ensures
        var s := LoadShelf(old(Now()), sid);
        Now() == if status == Down then StatusProtocol.HandleSystemDown(s, alerts)
                 else StatusProtocol.HandleSystemUp(s, alerts)
    {
      var cached := alertsCache.GetAlertsByName(sid, STATUS);
      alerts := cached;
      if |cached| == 0 {
        return;
      }
      if status == Down {
        HandleSystemDown(cached);
      } else {
        HandleSystemUp(cached);
      }
    }

    /** Requeues the untriggered Status alerts of systems that are down. */
    method RestorePendingStatusAlerts() returns (ghost ids: seq<AlertId>)
      requires Valid() && alertsCache.populated
      modifies alertsCache, `pendingAlerts, `log
      ensures Valid()
      ensures ListsIds(ids, set id | id in old(Now()).rows && Restorable(old(Now()), id))
      ensures forall id | id in ids :: id in old(Now()).rows
      ensures Now() == RestorePending(old(Now()), ids)
    {
      ghost var s := Now();
      var pending := EnumerateIds(set id | id in app.rows && app.rows[id].name == STATUS && !app.rows[id].triggered
                                           && app.rows[id].system in systemsTable
                                           && systemsTable[app.rows[id].system].status == Down);
      ids := pending;
      alertsCache.PopulateFromDB(false);
      for i := 0 to |pending|
        invariant Valid() && Now() == s.(timers := pendingAlerts, log := log)
        invariant forall id | id in pending[i..] :: id in s.rows
        invariant RestorePending(Now(), pending[i..]) == RestorePending(s, pending)
      {
        assert pending[i..][1..] == pending[i + 1..];
        assert pending[i] in pending;
        var alert, ok := alertsCache.GetAlert(app.rows[pending[i]].system, pending[i]);
        if ok {
          var min := if alert.min < 1 then 1 else alert.min;
          var _ := SchedulePendingStatusAlert(alert, min);
        }
      }
    }

    /** What the threshold evaluation does to the hub's memory: it looks the system up in the cache. */
    method HandleSystemAlerts(sid: SystemId)
      requires Valid()
      modifies alertsCache`store
      ensures Valid() && Now() == LoadShelf(old(Now()), sid)
    {
      var _ := alertsCache.GetSystemAlerts(sid);
    }

    // -------------------------------------------------------------- system manager

    method RemoveSystem(sid: SystemId) returns (ok: bool)
      modifies `systems
      ensures systems == old(systems) - {sid} && ok == (sid in old(systems))
    {
      ok := sid in systems;
      systems := systems - {sid};
    }

    method AddSystem(sid: SystemId, host: string, status: Status, connected: bool) returns (ok: bool)
      modifies `systems
      ensures ok == (sid !in old(systems) && sid != "" && host != "")
      ensures systems == if ok then old(systems)[sid := Entry(status, connected)] else old(systems)
    {
      if sid in systems || sid == "" || host == "" {
        return false;
      }
      systems := systems[sid := Entry(status, connected)];
      return true;
    }

    method AddRecord(sid: SystemId, connected: bool) returns (ok: bool)
      requires sid in systemsTable
      modifies `systems
      ensures Now() == StatusProtocol.AddRecord(old(Now()), sid, connected)
      ensures ok == (sid != "" && systemsTable[sid].host != "")
    {
      if sid in systems {
        var _ := RemoveSystem(sid);
      }
      assert systems == old(systems) - {sid};
      ok := AddSystem(sid, systemsTable[sid].host, systemsTable[sid].status, connected);
    }

    method DeactivateAlerts(sid: SystemId) returns (ghost ids: seq<AlertId>)
      requires Valid()
      modifies app, alertsCache`store
      ensures Valid() && ListsIds(ids, TriggeredOf(old(app.rows), sid))
      ensures forall id | id in ids :: id in old(app.rows)
      ensures Now() == StatusProtocol.DeactivateAlerts(old(Now()), ids)
    {
      ghost var s := Now();
      var found := EnumerateIds(set id | id in app.rows && app.rows[id].system == sid && app.rows[id].triggered);
      ids := found;
      for i := 0 to |found|
        invariant Valid() && app.rows.Keys == s.rows.Keys
        invariant forall id | id in found[i..] :: id in app.rows
        invariant StatusProtocol.DeactivateAlerts(Now(), found[i..]) == StatusProtocol.DeactivateAlerts(s, found)
      {
        assert found[i..][1..] == found[i + 1..];
        assert found[i] in found;
        var alert := app.rows[found[i]].(triggered := false);
        app.rows := app.rows[found[i] := alert];
        alertsCache.Update(found[i], alert);
      }
    }

    /** The after-update hook of the systems collection, run on a row that was just written. */
    method OnRecordAfterUpdateSuccess(sid: SystemId, ghost s: State, status: Status)
      returns (ghost alerts: seq<CachedAlert>, ghost ids: seq<AlertId>)
      requires Valid() && sid in s.systems && Now() == RowWritten(s, sid, status)
      modifies this, app, alertsCache
      ensures Valid()
      ensures Lists(alerts, StatusShelf(s, sid)) && ListsIds(ids, TriggeredOf(s.rows, sid))
      ensures Now() == OnStatusWrite(s, sid, status, alerts, ids)
    {
      var newStatus := systemsTable[sid].status;
      var prevStatus := Status.Pending;
      var ok := sid in systems;
      alerts := SomeListing(StatusShelf(s, sid));
      ids := SomeIds(TriggeredOf(s.rows, sid));
      if ok {
        prevStatus := systems[sid].status;
        systems := systems[sid := systems[sid].(status := newStatus)];
      }
      assert Now() == Noted(s, sid, status);
      if newStatus == Paused {
        ids := DeactivateAlerts(sid);
        CancelPendingStatusAlerts(sid);
        return;
      }
      if newStatus == Pending {
        if !(ok && systems[sid].connected) {
          var _ := AddRecord(sid, false);
          ids := DeactivateAlerts(sid);
        }
        return;
      }
      if !ok {
        var _ := AddRecord(sid, false);
        return;
      }
      if newStatus == Up {
        HandleSystemAlerts(sid);
      }
      if (newStatus == Down && prevStatus == Up) || (newStatus == Up && prevStatus == Down) {
        alerts := HandleStatusAlerts(newStatus, sid);
      }
    }

    /** A status written to a system record, with its hook. */
    method WriteStatus(sid: SystemId, status: Status) returns (ghost e: Event)
      requires Valid() && sid in systemsTable
      modifies this, app, alertsCache
      ensures Valid() && Enabled(old(Now()), e) && Now() == Step(old(Now()), e)
      ensures e.StatusWrite? && e.sid == sid && e.status == status
    {
      ghost var s := Now();
      log := RowWritten(s, sid, status).log;
      systemsTable := systemsTable[sid := systemsTable[sid].(status := status)];
      ghost var alerts, ids := OnRecordAfterUpdateSuccess(sid, s, status);
      e := StatusWrite(sid, status, alerts, ids);
    }

    /** Marks a system as down after a failed update. One that the manager remembers as down or paused already is
        left alone, and one whose row is gone is unregistered. */
    method SetDown(sid: SystemId) returns (ghost e: Event)
      requires Valid() && sid in systems
      modifies this, app, alertsCache
      ensures Valid()
      ensures
        if old(systems)[sid].status == Down || old(systems)[sid].status == Paused then Now() == old(Now())
        else if sid !in old(systemsTable) then Now() == old(Now()).(registry := old(systems) - {sid})
        else
          && e.StatusWrite? && e.sid == sid && e.status == Down
          && Enabled(old(Now()), e) && Now() == Step(old(Now()), e)
    {
      if systems[sid].status == Down || systems[sid].status == Paused {
        return Tick(0);
      }
      if sid !in systemsTable {
        var _ := RemoveSystem(sid);
        return Tick(0);
      }
      e := WriteStatus(sid, Down);
    }

    /** Registers every system that is not paused, in any order. */
    method Initialize()
      requires systems == map[]
      modifies `systems
      ensures Now() == old(Now()).(registry := systems) && systems == Registered(systemsTable)
    {
      var todo := set sid | sid in systemsTable && systemsTable[sid].status != Paused;
      ghost var all := todo;
      while todo != {}
        invariant todo <= all && Now() == old(Now()).(registry := systems)
        invariant systems == map sid | sid in all - todo && sid != "" && systemsTable[sid].host != "" ::
                               Entry(systemsTable[sid].status, false)
      {
        var sid :| sid in todo;
        var _ := AddSystem(sid, systemsTable[sid].host, systemsTable[sid].status, false);
        todo := todo - {sid};
      }
    }

    /** A restart: memory is lost, then the serve hooks populate the cache, restore the pending alerts
        and register the systems. */
    method Restart() returns (ghost e: Event)
      requires Valid()
      modifies this, alertsCache
      ensures Valid() && e.Restart? && Enabled(old(Now()), e) && Now() == Step(old(Now()), e)
    {
      ghost var s := Now();
      pendingAlerts, systems := map[], map[];
      log := log + [Restarted];
      alertsCache.PopulateFromDB(true);
      assert Now() == Booted(s);
      ghost var ids := RestorePendingStatusAlerts();
      e := Event.Restart(ids);
      hide Populated, RestorePending;
      RestoreLeavesSystems(Booted(s), ids);
      Initialize();
    }
  }

  lemma {:induction false} RestoreLeavesSystems(s: State, ids: seq<AlertId>)
    requires forall id | id in ids :: id in s.rows
    ensures
      var t := RestorePending(s, ids);
      t == s.(timers := t.timers, log := t.log)
    decreases |ids|
  {
    if ids != [] {
      var (ok, a) := Lookup(s.store, s.rows[ids[0]].system, ids[0]);
      RestoreLeavesSystems(if ok then Schedule(s, a) else s, ids[1..]);
    }
  }

  method EnumerateIds(of: set<AlertId>) returns (ids: seq<AlertId>)
    ensures ListsIds(ids, of)
  {
    ids := [];
    var todo := of;
    while todo != {}
      invariant todo <= of && ListsIds(ids, of - todo)
    {
      var id :| id in todo;
      OneIdMore(ids, of - todo, id);
      ids := ids + [id];
      assert of - (todo - {id}) == of - todo + {id};
      todo := todo - {id};
      hide ListsIds;
    }
    assert of - {} == of;
  }

  lemma OneIdMore(ids: seq<AlertId>, of: set<AlertId>, id: AlertId)
    requires ListsIds(ids, of) && id !in of
    ensures ListsIds(ids + [id], of + {id})
  {
    forall x ensures x in ids + [id] <==> x in of + {id} {}
  }

  lemma SomeIds(of: set<AlertId>) returns (ids: seq<AlertId>)
    ensures ListsIds(ids, of)
  {
    if of == {} {
      ids := [];
    } else {
      var id :| id in of;
      ids := SomeIds(of - {id});
      ids := ids + [id];
    }
  }

  lemma SomeListing(shelf: Shelf) returns (xs: seq<CachedAlert>)
    requires Keyed(shelf)
    ensures Lists(xs, shelf)
    decreases shelf.Keys
  {
    if shelf == map[] {
      xs := [];
    } else {
      var id :| id in shelf;
      var rest := shelf - {id};
      xs := SomeListing(rest);
      assert forall k | k in shelf && k != id :: k in rest && rest[k] == shelf[k];
      xs := xs + [shelf[id]];
    }
  }
}
