/** Status alerts as one state machine: the systems and alerts collections, the alerts cache, the
    pending timers, the registry of monitored systems and the clock. Every PocketBase hook, timer
    callback and hub restart is one atomic step. */
module StatusProtocol {
  import opened Numbers
  import opened AlertData
  import opened AlertsStore

  datatype Status = Up | Down | Paused | Pending

  datatype System = System(status: Status, host: string)

  /** A system held by the manager: its remembered status and whether a WebSocket is attached. */
  datatype Entry = Entry(status: Status, connected: bool)

  /** A scheduled "down" notice: the alert as it was cached at scheduling time, and when it is due. */
  datatype Timer = Timer(alert: CachedAlert, due: nat)

  /** History of the run, for stating properties over time; the hub itself keeps none of this. */
  datatype Mark =
    | Sent(up: bool, alert: AlertId, system: SystemId, at: nat)
    | Scheduled(alert: AlertId, system: SystemId, at: nat, min: nat)
    | TurnedUp(system: SystemId)        // the status row went from down to up
    | Suspended(system: SystemId)       // the status row was written as paused or pending
    | Dropped(alert: AlertId)           // the alert row was deleted
    | SystemGone(system: SystemId)      // the system row and its alerts were deleted
    | Restarted

  datatype State = State(
    now: nat,
    systems: map<SystemId, System>,
    rows: Rows,
    store: Store,
    registry: map<SystemId, Entry>,
    timers: map<AlertId, Timer>,
    log: seq<Mark>)

  const MINUTE: nat := 60

  function Minutes(a: CachedAlert): nat { Max(1, a.min) }

  // ---------------------------------------------------------------- alerts_status.go

  /** LoadOrStore: an alert that is already pending keeps its timer. */
  function Schedule(s: State, a: CachedAlert): State {
    if a.id in s.timers then s
    else s.(timers := s.timers[a.id := Timer(a, s.now + Minutes(a) * MINUTE)],
            log := s.log + [Scheduled(a.id, a.systemId, s.now, a.min)])
  }

  function HandleSystemDown(s: State, alerts: seq<CachedAlert>): State
    decreases |alerts|
  {
    if alerts == [] then s else HandleSystemDown(Schedule(s, alerts[0]), alerts[1..])
  }

  /** Saves the triggered flag of an alert row; the update hook refreshes the cache. */
  function SetTriggered(s: State, id: AlertId, triggered: bool): State
    requires id in s.rows
  {
    var row := s.rows[id].(triggered := triggered);
    s.(rows := s.rows[id := row], store := Updated(s.store, id, row))
  }

  /** No notice goes out for an alert whose row has disappeared. */
  function SendStatusAlert(s: State, up: bool, a: CachedAlert): State {
    if a.id !in s.rows then s
    else
      var t := SetTriggered(s, a.id, !up);
      t.(log := t.log + [Sent(up, a.id, a.systemId, s.now)])
  }

  /** A pending alert is cancelled silently; a triggered one is resolved with a notice. */
  function HandleOneUp(s: State, a: CachedAlert): State {
    if a.id in s.timers then s.(timers := s.timers - {a.id})
    else if !a.triggered then s
    else SendStatusAlert(s, true, a)
  }

  function HandleSystemUp(s: State, alerts: seq<CachedAlert>): State
    decreases |alerts|
  {
    if alerts == [] then s else HandleSystemUp(HandleOneUp(s, alerts[0]), alerts[1..])
  }

  function CancelPendingStatusAlerts(s: State, sid: SystemId): State {
    s.(timers := map id | id in s.timers && s.timers[id].alert.systemId != sid :: s.timers[id])
  }

  function ProcessPendingAlert(s: State, id: AlertId): State {
    if id !in s.timers then s
    else
      var a := s.timers[id].alert;
      var t := s.(timers := s.timers - {id});
      if a.id == "" || !Lookup(s.store, a.systemId, a.id).0 then t
      else
        var latest := Lookup(s.store, a.systemId, a.id).1;
        if latest.triggered then t else SendStatusAlert(t, false, latest)
  }

  /** The rows `restorePendingStatusAlerts` selects. */
  predicate Restorable(s: State, id: AlertId) {
    && id in s.rows && s.rows[id].name == STATUS && !s.rows[id].triggered
    && s.rows[id].system in s.systems && s.systems[s.rows[id].system].status == Down
  }

  function RestorePending(s: State, ids: seq<AlertId>): State
    requires forall id | id in ids :: id in s.rows
    decreases |ids|
  {
    if ids == [] then s
    else
      var (ok, a) := Lookup(s.store, s.rows[ids[0]].system, ids[0]);
      RestorePending(if ok then Schedule(s, a) else s, ids[1..])
  }

  // ---------------------------------------------------------------- system_manager.go

  /** Re-registers a system; a record without an id or a host leaves it unregistered. */
  function AddRecord(s: State, sid: SystemId, connected: bool): State
    requires sid in s.systems
  {
    if sid == "" || s.systems[sid].host == "" then s.(registry := s.registry - {sid})
    else s.(registry := s.registry[sid := Entry(s.systems[sid].status, connected)])
  }

  /** Clears the triggered flag of the given rows, one save after another. */
  function DeactivateAlerts(s: State, ids: seq<AlertId>): State
    requires forall id | id in ids :: id in s.rows
    decreases |ids|
  {
    if ids == [] then s else DeactivateAlerts(SetTriggered(s, ids[0], false), ids[1..])
  }

  /** The rows `deactivateAlerts` selects, whatever their name. */
  function TriggeredOf(rows: Rows, sid: SystemId): set<AlertId> {
    set id | id in rows && rows[id].system == sid && rows[id].triggered
  }

  function LoadShelf(s: State, sid: SystemId): State {
    s.(store := Loaded(s.store, s.rows, sid))
  }

  /** The cached Status alerts a status change of `sid` will be handled for. */
  function StatusShelf(s: State, sid: SystemId): Shelf {
    OfName(Loaded(s.store, s.rows, sid)[sid], STATUS)
  }

  /** The collection write that precedes the after-update hook. */
  function RowWritten(s: State, sid: SystemId, status: Status): State
    requires sid in s.systems
  {
    s.(systems := s.systems[sid := s.systems[sid].(status := status)],
       log := s.log
              + (if s.systems[sid].status == Down && status == Up then [TurnedUp(sid)] else [])
              + (if status == Paused || status == Pending then [Suspended(sid)] else []))
  }

  function Remembered(s: State, sid: SystemId): Status {
    if sid in s.registry then s.registry[sid].status else Pending
  }

  function Remember(s: State, sid: SystemId, status: Status): State {
    if sid in s.registry then s.(registry := s.registry[sid := s.registry[sid].(status := status)]) else s
  }

  /** The row write together with the manager's memory of it. */
  function Noted(s: State, sid: SystemId, status: Status): State
    requires sid in s.systems
  {
    Remember(RowWritten(s, sid, status), sid, status)
  }

  function OnPaused(s: State, sid: SystemId, ids: seq<AlertId>): State
    requires forall id | id in ids :: id in s.rows
  {
    CancelPendingStatusAlerts(DeactivateAlerts(s, ids), sid)
  }

  /** With a live connection the system is only asked for an update; nothing is deactivated. */
  function OnPending(s: State, sid: SystemId, ids: seq<AlertId>): State
    requires sid in s.systems
    requires forall id | id in ids :: id in s.rows
  {
    if sid in s.registry && s.registry[sid].connected then s
    else DeactivateAlerts(AddRecord(s, sid, false), ids)
  }

  /** Up or down: status alerts are handled only for a registered system that moved between the two. */
  function OnActive(s: State, sid: SystemId, status: Status, before: Status, alerts: seq<CachedAlert>): State
    requires sid in s.systems
  {
    if sid !in s.registry then AddRecord(s, sid, false)
    else
      var t := if status == Up then LoadShelf(s, sid) else s;
      if status == Down && before == Up then HandleSystemDown(LoadShelf(t, sid), alerts)
      else if status == Up && before == Down then HandleSystemUp(LoadShelf(t, sid), alerts)
      else t
  }

  /** A status write followed by the after-update hook of the systems collection. `alerts` and `ids`
      fix the order in which the cached alerts and the triggered rows are visited. */
  function OnStatusWrite(s: State, sid: SystemId, status: Status, alerts: seq<CachedAlert>, ids: seq<AlertId>): State
    requires sid in s.systems
    requires forall id | id in ids :: id in s.rows
  {
    var t := Noted(s, sid, status);
    match status
    case Paused => OnPaused(t, sid, ids)
    case Pending => OnPending(t, sid, ids)
    case _ => OnActive(t, sid, status, Remembered(s, sid), alerts)
  }

  // ---------------------------------------------------------------- steps

  datatype Event =
    | Tick(seconds: nat)
    | StatusWrite(sid: SystemId, status: Status, alerts: seq<CachedAlert>, ids: seq<AlertId>)
    | TimerFires(id: AlertId)
    | CreateAlert(id: AlertId, row: AlertRecord)
    | EditAlert(id: AlertId, value: real, min: int)
    | DeleteAlert(id: AlertId)
    | FlagSystemAlert(id: AlertId, triggered: bool)   // a threshold alert, never a Status alert
    | CreateSystem(sid: SystemId, host: string)
    | DeleteSystem(sid: SystemId)
    | AgentConnects(sid: SystemId)
    | ConnectionLost(sid: SystemId)
    | PausedSystemRemoved(sid: SystemId)
    | Restart(ids: seq<AlertId>)

  ghost predicate ListsIds(ids: seq<AlertId>, of: set<AlertId>) {
    && (forall id :: id in ids <==> id in of)
    && (forall i, j | 0 <= i < j < |ids| :: ids[i] != ids[j])
  }

  /** What the environment may do. A timer fires no earlier than it is due; ids of rows are fresh;
      users create alerts untriggered and never change an alert's system or name. */
  ghost predicate Enabled(s: State, e: Event) {
    match e
    case Tick(_) => true
    case StatusWrite(sid, status, alerts, ids) =>
      && sid in s.systems
      && Lists(alerts, StatusShelf(s, sid))
      && ListsIds(ids, TriggeredOf(s.rows, sid))
    case TimerFires(id) => id in s.timers && s.timers[id].due <= s.now
    case CreateAlert(id, row) =>
      id != "" && id !in s.rows && id !in s.timers && row.system in s.systems && !row.triggered
    case EditAlert(id, _, _) => id in s.rows
    case DeleteAlert(id) => id in s.rows
    case FlagSystemAlert(id, _) => id in s.rows && s.rows[id].name != STATUS
    case CreateSystem(sid, host) =>
      sid != "" && host != "" && sid !in s.systems
    case DeleteSystem(sid) => sid in s.systems
    case AgentConnects(sid) => sid in s.systems
    case ConnectionLost(sid) => sid in s.registry
    case PausedSystemRemoved(sid) => sid in s.registry && s.registry[sid].status == Paused
    case Restart(ids) => ListsIds(ids, set id | id in s.rows && Restorable(s, id))
  }

  ghost function Step(s: State, e: Event): State
    requires Enabled(s, e)
  {
    match e
    case Tick(d) => s.(now := s.now + d)
    case StatusWrite(sid, status, alerts, ids) => OnStatusWrite(s, sid, status, alerts, ids)
    case TimerFires(id) => ProcessPendingAlert(s, id)
    case CreateAlert(id, row) => SaveAlert(s, id, row)
    case EditAlert(id, value, min) => SaveAlert(s, id, s.rows[id].(value := value, min := min))
    case DeleteAlert(id) =>
      s.(rows := s.rows - {id}, store := Deleted(s.store, id, s.rows[id]), log := s.log + [Dropped(id)])
    case FlagSystemAlert(id, triggered) => SetTriggered(s, id, triggered)
    case CreateSystem(sid, host) => AddRecord(s.(systems := s.systems[sid := System(Pending, host)]), sid, false)
    case DeleteSystem(sid) => DeleteSystemRow(s, sid)
    case AgentConnects(sid) => AddRecord(s, sid, true)
    case ConnectionLost(sid) => s.(registry := s.registry[sid := s.registry[sid].(connected := false)])
    case PausedSystemRemoved(sid) => s.(registry := s.registry - {sid})
    case Restart(ids) => HubRestarts(s, ids)
  }

  function SaveAlert(s: State, id: AlertId, row: AlertRecord): State {
    s.(rows := s.rows[id := row], store := Updated(s.store, id, row))
  }

  /** Deletion cascades to the alerts of the system. */
  function DeleteSystemRow(s: State, sid: SystemId): State {
    var gone := set id | id in s.rows && s.rows[id].system == sid;
    s.(systems := s.systems - {sid},
       rows := s.rows - gone,
       store := if sid in s.store then s.store[sid := s.store[sid] - gone] else s.store,
       registry := s.registry - {sid},
       log := s.log + [SystemGone(sid)])
  }

  function Booted(s: State): State {
    s.(store := Populated(s.rows), registry := map[], timers := map[], log := s.log + [Restarted])
  }

  /** All memory is lost, the cache is populated, pending alerts are restored, and every system that
      is not paused is registered again. */
  function HubRestarts(s: State, ids: seq<AlertId>): State
    requires forall id | id in ids :: id in s.rows
  {
    RestorePending(Booted(s), ids).(registry := Registered(s.systems))
  }

  /** The registry after initialization: every system that is not paused, none of them connected. */
  function Registered(systems: map<SystemId, System>): map<SystemId, Entry> {
    map sid | sid in systems && systems[sid].status != Paused && sid != "" && systems[sid].host != "" ::
      Entry(systems[sid].status, false)
  }

  /** A hub that has just been installed and served: nothing stored, nothing pending. */
  function Initial(now: nat): State {
    State(now, map[], map[], map[], map[], map[], [])
  }
}
