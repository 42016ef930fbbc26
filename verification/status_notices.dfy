/** What users are told: properties of the notices sent over a whole run of the status protocol. */
module StatusNotices {
  import opened Numbers
  import opened Wrappers
  import opened AlertData
  import opened AlertsStore
  import opened StatusProtocol
  import opened StatusInvariant

  datatype Plan = Plan(system: SystemId, at: nat, min: nat)

  /** The history of one alert that still matters: the system of a "down" notice not yet taken back,
      whether the latest notice was "up", and the scheduling a future "down" notice would rest on. */
  datatype Past = Past(down: Option<SystemId>, up: bool, plan: Option<Plan>)

  function OffSystem(o: Option<SystemId>, sid: SystemId): Option<SystemId> {
    if o == Some(sid) then None else o
  }

  function Unplanned(p: Option<Plan>, sid: SystemId): Option<Plan> {
    if p.Some? && p.value.system == sid then None else p
  }

  function Next(h: Past, m: Mark, a: AlertId): Past {
    match m
    case Sent(up, id, sid, _) =>
      if id != a then h
      else if up then h.(down := None, up := true)
      else Past(Some(sid), false, None)
    case Scheduled(id, sid, at, min) => if id != a then h else h.(plan := Some(Plan(sid, at, min)))
    case TurnedUp(sid) => h.(plan := Unplanned(h.plan, sid))
    case Suspended(sid) => h.(down := OffSystem(h.down, sid), plan := Unplanned(h.plan, sid))
    case Dropped(id) => if id != a then h else h.(down := None, plan := None)
    case SystemGone(sid) => h.(down := OffSystem(h.down, sid), plan := Unplanned(h.plan, sid))
    case Restarted => h.(plan := None)
  }

  function PastOf(log: seq<Mark>, a: AlertId): Past {
    if log == [] then Past(None, false, None)
    else Next(PastOf(log[..|log| - 1], a), log[|log| - 1], a)
  }

  function Delay(min: nat): nat { Max(1, min) * MINUTE }

  /** A "down" notice is justified by a plan that has run its full delay and does not repeat an open
      one; an "up" notice does not follow another. */
  predicate Justified(h: Past, m: Mark, a: AlertId) {
    m.Sent? && m.alert == a ==>
      if m.up then !h.up
      else h.down.None? && h.plan.Some? && h.plan.value.system == m.system
           && h.plan.value.at + Delay(h.plan.value.min) <= m.at
  }

  predicate Orderly(log: seq<Mark>, a: AlertId) {
    log == [] ||
    var init, m := log[..|log| - 1], log[|log| - 1];
    Orderly(init, a) && Justified(PastOf(init, a), m, a)
  }

  lemma Appended(log: seq<Mark>, m: Mark, a: AlertId)
    ensures PastOf(log + [m], a) == Next(PastOf(log, a), m, a)
    ensures Orderly(log + [m], a) <==> Orderly(log, a) && Justified(PastOf(log, a), m, a)
  {
    assert (log + [m])[..|log|] == log;
  }

  // ---------------------------------------------------------------- the invariant

  /** History and stored flag of `a` agree. */
  ghost predicate FlagsAgree(rows: Rows, log: seq<Mark>, a: AlertId) {
    var h := PastOf(log, a);
    && Orderly(log, a)
    && (h.down.Some? ==> a in rows && rows[a].name == STATUS && rows[a].triggered && rows[a].system == h.down.value)
    && (h.up && a in rows && rows[a].name == STATUS ==> !rows[a].triggered)
  }

  /** A running timer of an existing alert rests on its latest plan. */
  ghost predicate PlanAgrees(rows: Rows, timers: Timers, log: seq<Mark>, a: AlertId) {
    a in timers && a in rows ==>
      var p := PastOf(log, a).plan;
      p.Some? && p.value.system == rows[a].system && timers[a].due == p.value.at + Delay(p.value.min)
  }

  ghost predicate NoticesOk(s: State, a: AlertId) {
    FlagsAgree(s.rows, s.log, a) && PlanAgrees(s.rows, s.timers, s.log, a)
  }

  // ---------------------------------------------------------------- loops

  lemma ScheduleHistory(s: State, x: CachedAlert, a: AlertId)
    requires NoticesOk(s, a) && x.id in s.rows && s.rows[x.id].system == x.systemId
    ensures NoticesOk(Schedule(s, x), a)
  {
    Appended(s.log, Scheduled(x.id, x.systemId, s.now, x.min), a);
  }

  lemma {:induction false} DownHistory(s: State, alerts: seq<CachedAlert>, a: AlertId)
    requires NoticesOk(s, a) && forall x | x in alerts :: x.id in s.rows && s.rows[x.id].system == x.systemId
    ensures NoticesOk(HandleSystemDown(s, alerts), a)
    decreases |alerts|
  {
    if alerts != [] {
      ScheduleHistory(s, alerts[0], a);
      hide NoticesOk;
      DownHistory(Schedule(s, alerts[0]), alerts[1..], a);
    }
  }

  lemma {:induction false} RestoreHistory(s: State, ids: seq<AlertId>, a: AlertId)
    requires NoticesOk(s, a) && Synced(s.store, s.rows) && forall id | id in ids :: id in s.rows
    ensures NoticesOk(RestorePending(s, ids), a)
    decreases |ids|
  {
    if ids != [] {
      var (ok, x) := Lookup(s.store, s.rows[ids[0]].system, ids[0]);
      ScheduleHistory(s, x, a);
      hide NoticesOk, Synced, Lookup;
      RestoreHistory(Schedule(s, x), ids[1..], a);
    }
  }

  lemma OneUpHistory(s: State, x: CachedAlert, a: AlertId)
    requires FlagsAgree(s.rows, s.log, a) && x.id in s.rows && x == Project(x.id, s.rows[x.id]) && x.name == STATUS
    ensures FlagsAgree(HandleOneUp(s, x).rows, HandleOneUp(s, x).log, a)
    ensures x.id != a ==> PastOf(HandleOneUp(s, x).log, a) == PastOf(s.log, a)
  {
    Appended(s.log, Sent(true, x.id, x.systemId, s.now), a);
  }

  lemma {:induction false} UpHistory(s: State, alerts: seq<CachedAlert>, sid: SystemId, a: AlertId)
    requires TablesOk(s.systems, s.rows) && Synced(s.store, s.rows) && Current(s, alerts, sid)
    requires FlagsAgree(s.rows, s.log, a)
    ensures
      var t := HandleSystemUp(s, alerts);
      FlagsAgree(t.rows, t.log, a) && (a !in Ids(alerts) ==> PastOf(t.log, a) == PastOf(s.log, a))
    decreases |alerts|
  {
    hide FlagsAgree, Synced, TablesOk, HandleOneUp;
    if alerts != [] {
      UpOneEffect(s, alerts[0]);
      OneUpHistory(s, alerts[0], a);
      CurrentTail(s, HandleOneUp(s, alerts[0]), alerts, sid);
      UpHistory(HandleOneUp(s, alerts[0]), alerts[1..], sid, a);
      assert Ids(alerts) == {alerts[0].id} + Ids(alerts[1..]);
    }
  }

  // ---------------------------------------------------------------- steps

  /** The marks a status write adds before the hook runs. */
  lemma NotedHistory(s: State, sid: SystemId, status: Status, a: AlertId)
    requires sid in s.systems && FlagsAgree(s.rows, s.log, a)
    ensures
      var h, h' := PastOf(s.log, a), PastOf(Noted(s, sid, status).log, a);
      && Orderly(Noted(s, sid, status).log, a) && h'.up == h.up
      && h'.down == (if status == Paused || status == Pending then OffSystem(h.down, sid) else h.down)
      && (status == Down || (h.plan.Some? && h.plan.value.system != sid) ==> h'.plan == h.plan)
  {
    NotedLog(s, sid, status);
    hide Noted, PastOf, Orderly;
    MarkHistory(s.log, Noted(s, sid, status).log, s.systems[sid].status, status, sid, a);
  }

  lemma MarkHistory(log: seq<Mark>, log': seq<Mark>, was: Status, status: Status, sid: SystemId, a: AlertId)
    requires Orderly(log, a)
    requires log' == (if was == Down && status == Up then log + [TurnedUp(sid)]
                      else if status == Paused || status == Pending then log + [Suspended(sid)]
                      else log)
    ensures
      var h, h' := PastOf(log, a), PastOf(log', a);
      && Orderly(log', a) && h'.up == h.up
      && h'.down == (if status == Paused || status == Pending then OffSystem(h.down, sid) else h.down)
      && (status == Down || (h.plan.Some? && h.plan.value.system != sid) ==> h'.plan == h.plan)
  {
    hide PastOf, Orderly;
    if was == Down && status == Up {
      Appended(log, TurnedUp(sid), a);
    } else if status == Paused || status == Pending {
      Appended(log, Suspended(sid), a);
    }
  }

  lemma NotedLog(s: State, sid: SystemId, status: Status)
    requires sid in s.systems
    ensures
      Noted(s, sid, status).log ==
      if s.systems[sid].status == Down && status == Up then s.log + [TurnedUp(sid)]
      else if status == Paused || status == Pending then s.log + [Suspended(sid)]
      else s.log
  {}

  /** A status write that schedules and announces nothing: rows of the system may be cleared when it is
      suspended, timers may go, and by the invariant no timer of the system is left unless it is down. */
  lemma QuietWriteHistory(s: State, t: State, sid: SystemId, status: Status, cleared: set<AlertId>, a: AlertId)
    requires NoticesOk(s, a) && sid in s.systems && t.log == Noted(s, sid, status).log
    requires TimersOk(t.systems, t.rows, t.timers) && sid in t.systems && t.systems[sid].status == status
    requires Cleared(s.rows, t.rows, cleared) && ((status == Up || status == Down) ==> cleared == {})
    requires forall id | id in cleared :: id in s.rows ==> s.rows[id].system == sid
    requires forall id | id in t.timers :: id in s.timers && t.timers[id] == s.timers[id]
    ensures NoticesOk(t, a)
  {
    hide Noted, PastOf, Orderly, NoticesOk;
    assert FlagsAgree(s.rows, s.log, a) && PlanAgrees(s.rows, s.timers, s.log, a) by { NoticesOkIs(s, a); }
    NotedHistory(s, sid, status, a);
    QuietFlags(s, t, sid, status, cleared, a);
    QuietPlan(s, t, sid, status, cleared, a);
    NoticesOkIs(t, a);
  }

  lemma NoticesOkIs(s: State, a: AlertId)
    ensures NoticesOk(s, a) <==> FlagsAgree(s.rows, s.log, a) && PlanAgrees(s.rows, s.timers, s.log, a)
  {}

  lemma QuietFlags(s: State, t: State, sid: SystemId, status: Status, cleared: set<AlertId>, a: AlertId)
    requires FlagsAgree(s.rows, s.log, a) && sid in s.systems && t.log == Noted(s, sid, status).log
    requires Cleared(s.rows, t.rows, cleared) && ((status == Up || status == Down) ==> cleared == {})
    requires forall id | id in cleared :: id in s.rows ==> s.rows[id].system == sid
    ensures FlagsAgree(t.rows, t.log, a)
  {
    NotedHistory(s, sid, status, a);
    hide Noted, PastOf, Orderly;
  }

  lemma QuietPlan(s: State, t: State, sid: SystemId, status: Status, cleared: set<AlertId>, a: AlertId)
    requires FlagsAgree(s.rows, s.log, a) && PlanAgrees(s.rows, s.timers, s.log, a)
    requires sid in s.systems && t.log == Noted(s, sid, status).log && Cleared(s.rows, t.rows, cleared)
    requires TimersOk(t.systems, t.rows, t.timers) && sid in t.systems && t.systems[sid].status == status
    requires forall id | id in t.timers :: id in s.timers && t.timers[id] == s.timers[id]
    ensures PlanAgrees(t.rows, t.timers, t.log, a)
  {
    NotedHistory(s, sid, status, a);
    hide Noted, PastOf, Orderly, FlagsAgree;
  }

  lemma DownWriteHistory(s: State, sid: SystemId, alerts: seq<CachedAlert>, a: AlertId)
    requires Inv(s) && NoticesOk(s, a) && sid in s.systems && Lists(alerts, StatusShelf(s, sid))
    ensures NoticesOk(OnActive(Noted(s, sid, Down), sid, Down, Remembered(s, sid), alerts), a)
  {
    var r := Noted(s, sid, Down);
    NotedEffect(s, sid, Down);
    LoadEffect(r, sid);
    ListedAreStatusRows(s, sid, alerts);
    AfterWrite(s, r, sid, Down, {});
    QuietWriteHistory(s, r, sid, Down, {}, a);
    hide Noted, PastOf, Orderly, NoticesOk, Lists, Synced, StatusShelf, RegistryOk, TablesOk, TimersOk, TriggeredOk;
    if sid in s.registry && Remembered(s, sid) == Up {
      NoticesFrame(r, LoadShelf(r, sid), a);
      DownHistory(LoadShelf(r, sid), alerts, a);
      hide HandleSystemDown;
    } else {
      var t := OnActive(r, sid, Down, Remembered(s, sid), alerts);
      NoticesFrame(r, t, a);
    }
  }

  lemma NoticesFrame(s: State, t: State, a: AlertId)
    requires NoticesOk(s, a) && t.rows == s.rows && t.timers == s.timers && t.log == s.log
    ensures NoticesOk(t, a)
  {}

  lemma UpWriteHistory(s: State, sid: SystemId, alerts: seq<CachedAlert>, a: AlertId)
    requires Inv(s) && NoticesOk(s, a) && sid in s.systems && Lists(alerts, StatusShelf(s, sid))
    ensures NoticesOk(OnActive(Noted(s, sid, Up), sid, Up, Remembered(s, sid), alerts), a)
  {
    if sid in s.registry && Remembered(s, sid) == Down {
      NotedEffect(s, sid, Up);
      ListedAreStatusRows(s, sid, alerts);
      hide Lists, StatusShelf, RegistryOk, TablesOk, TriggeredOk, TimersOk, Synced, NoticesOk, Noted;
      ResolvedHistory(s, Noted(s, sid, Up), sid, alerts, a);
    } else {
      UpKeepsInv(s, sid, alerts);
      NotedEffect(s, sid, Up);
      hide Lists, StatusShelf, RegistryOk, TablesOk, TriggeredOk, TimersOk, Synced, NoticesOk, Noted;
      QuietWriteHistory(s, OnActive(Noted(s, sid, Up), sid, Up, Remembered(s, sid), alerts), sid, Up, {}, a);
    }
  }

  lemma ResolvedHistory(s: State, r: State, sid: SystemId, alerts: seq<CachedAlert>, a: AlertId)
    requires sid in s.systems && r == Noted(s, sid, Up) && NoticesOk(s, a)
    requires TablesOk(r.systems, r.rows) && Synced(r.store, r.rows) && Current(r, alerts, sid)
    requires Ids(alerts) == set id | id in s.rows && s.rows[id].system == sid && s.rows[id].name == STATUS
    requires TimersOk(s.systems, s.rows, s.timers) && r.rows == s.rows && r.timers == s.timers
    ensures NoticesOk(HandleSystemUp(LoadShelf(r, sid), alerts), a)
  {
    NotedHistory(s, sid, Up, a);
    LoadEffect(r, sid);
    var l := LoadShelf(r, sid);
    assert FlagsAgree(l.rows, l.log, a);
    hide Noted, LoadShelf, PastOf, Orderly, Synced, TablesOk;
    UpHistory(l, alerts, sid, a);
    UpEffect(l, alerts, sid);
    hide HandleSystemUp, Current, FlagsAgree;
  }

  lemma StatusWriteHistory(
    s: State, sid: SystemId, status: Status, alerts: seq<CachedAlert>, ids: seq<AlertId>, a: AlertId)
    requires Inv(s) && NoticesOk(s, a) && sid in s.systems && SafeWrite(s, sid, status)
    requires Lists(alerts, StatusShelf(s, sid)) && ListsIds(ids, TriggeredOf(s.rows, sid))
    ensures NoticesOk(OnStatusWrite(s, sid, status, alerts, ids), a)
  {
    match status
    case Up => UpWriteHistory(s, sid, alerts, a); hide *;
    case Down => DownWriteHistory(s, sid, alerts, a); hide *;
    case Paused => PausedWriteHistory(s, sid, ids, a); hide *;
    case Pending => PendingWriteHistory(s, sid, ids, a); hide *;
  }

  lemma PausedWriteHistory(s: State, sid: SystemId, ids: seq<AlertId>, a: AlertId)
    requires Inv(s) && NoticesOk(s, a) && sid in s.systems && ListsIds(ids, TriggeredOf(s.rows, sid))
    ensures NoticesOk(OnPaused(Noted(s, sid, Paused), sid, ids), a)
  {
    var r := Noted(s, sid, Paused);
    PausedKeepsInv(s, sid, ids);
    NotedEffect(s, sid, Paused);
    DeactivateEffect(r, ids);
    hide NoticesOk, Synced, RegistryOk, TablesOk, TriggeredOk, DeactivateAlerts, TimersOk, Cleared;
    QuietWriteHistory(s, OnPaused(r, sid, ids), sid, Paused, Elems(ids), a);
  }

  lemma PendingWriteHistory(s: State, sid: SystemId, ids: seq<AlertId>, a: AlertId)
    requires Inv(s) && NoticesOk(s, a) && sid in s.systems && SafeWrite(s, sid, Pending)
    requires ListsIds(ids, TriggeredOf(s.rows, sid))
    ensures NoticesOk(OnPending(Noted(s, sid, Pending), sid, ids), a)
  {
    var r := Noted(s, sid, Pending);
    PendingWriteIff(s, sid, ids);
    PendingEffect(s, sid, ids);
    PendingLog(s, sid, ids);
    hide NoticesOk, Synced, RegistryOk, TablesOk, TriggeredOk, OnPending, TimersOk, Cleared, SafeWrite, Noted, ListsIds;
    QuietWriteHistory(s, OnPending(r, sid, ids), sid, Pending, ClearedByPending(s, sid), a);
  }

  lemma PendingLog(s: State, sid: SystemId, ids: seq<AlertId>)
    requires sid in s.systems && TablesOk(s.systems, s.rows) && RegistryOk(s.systems, s.registry)
    requires Synced(s.store, s.rows)
    requires forall id | id in ids :: id in s.rows
    ensures OnPending(Noted(s, sid, Pending), sid, ids).log == Noted(s, sid, Pending).log
  {
    var r := Noted(s, sid, Pending);
    NotedEffect(s, sid, Pending);
    hide Synced, TablesOk, RegistryOk, Noted;
    DeactivateEffect(AddRecord(r, sid, false), ids);
  }

  /** A timer fires quietly, or its notice goes out for an untriggered Status alert. */
  lemma TimerEffect(s: State, id: AlertId)
    requires TimersOk(s.systems, s.rows, s.timers) && Sound(s.store, s.rows) && id in s.timers
    ensures
      var t := ProcessPendingAlert(s, id);
      && t.timers == s.timers - {id}
      && ((t.rows == s.rows && t.log == s.log)
          || (&& id in s.rows && s.rows[id].name == STATUS && !s.rows[id].triggered
              && t.rows == s.rows[id := s.rows[id].(triggered := true)]
              && t.log == s.log + [Sent(false, id, s.rows[id].system, s.now)]))
  {
    hide Updated;
  }

  lemma SentDownHistory(rows: Rows, timers: Timers, log: seq<Mark>, id: AlertId, now: nat, a: AlertId)
    requires FlagsAgree(rows, log, a) && PlanAgrees(rows, timers, log, a)
    requires id in rows && id in timers && rows[id].name == STATUS && !rows[id].triggered && timers[id].due <= now
    ensures
      var rows', log' := rows[id := rows[id].(triggered := true)], log + [Sent(false, id, rows[id].system, now)];
      FlagsAgree(rows', log', a) && PlanAgrees(rows', timers - {id}, log', a)
  {
    Appended(log, Sent(false, id, rows[id].system, now), a);
    hide PastOf, Orderly;
  }

  lemma TimerHistory(s: State, id: AlertId, a: AlertId)
    requires Inv(s) && NoticesOk(s, a) && id in s.timers && s.timers[id].due <= s.now
    ensures NoticesOk(ProcessPendingAlert(s, id), a)
  {
    TimerEffect(s, id);
    hide FlagsAgree, TablesOk, RegistryOk, Complete, Sound, TimersOk, TriggeredOk, ProcessPendingAlert;
    if ProcessPendingAlert(s, id).log != s.log {
      SentDownHistory(s.rows, s.timers, s.log, id, s.now, a);
    }
  }

  /** Saving a row of an existing alert without touching the flag of a Status alert, or a new untriggered row. */
  lemma SaveHistory(s: State, id: AlertId, row: AlertRecord, a: AlertId)
    requires NoticesOk(s, a)
    requires
      if id in s.rows then
        && row.system == s.rows[id].system && row.name == s.rows[id].name
        && (row.name == STATUS ==> row.triggered == s.rows[id].triggered)
      else id !in s.timers && !row.triggered
    ensures NoticesOk(SaveAlert(s, id, row), a)
  {
    hide PastOf, Orderly;
  }

  lemma DeleteHistory(s: State, id: AlertId, a: AlertId)
    requires NoticesOk(s, a) && id in s.rows
    ensures NoticesOk(Step(s, DeleteAlert(id)), a)
  {
    Appended(s.log, Dropped(id), a);
    hide PastOf, Orderly;
  }

  lemma DeleteSystemHistory(s: State, sid: SystemId, a: AlertId)
    requires NoticesOk(s, a) && sid in s.systems
    ensures NoticesOk(DeleteSystemRow(s, sid), a)
  {
    Appended(s.log, SystemGone(sid), a);
    hide PastOf, Orderly;
  }

  lemma RestartHistory(s: State, ids: seq<AlertId>, a: AlertId)
    requires Inv(s) && NoticesOk(s, a) && ListsIds(ids, set id | id in s.rows && Restorable(s, id))
    ensures NoticesOk(HubRestarts(s, ids), a)
  {
    Appended(s.log, Restarted, a);
    assert NoticesOk(Booted(s), a);
    hide NoticesOk, Populated, TablesOk, TimersOk, TriggeredOk, RegistryOk, PastOf, Orderly;
    PopulatedSynced(s.rows);
    hide Synced;
    RestoreHistory(Booted(s), ids, a);
    RestoreEffect(Booted(s), ids);
    hide RestorePending, ListsIds, TimersAdded, Projections;
    NoticesFrame(RestorePending(Booted(s), ids), HubRestarts(s, ids), a);
  }

  lemma StepKeepsNotices(s: State, e: Event, a: AlertId)
    requires Inv(s) && NoticesOk(s, a) && Enabled(s, e) && Safe(s, e)
    ensures NoticesOk(Step(s, e), a)
  {
    hide Inv, Lists, ListsIds, SafeWrite, NoticesOk, OnStatusWrite, ProcessPendingAlert, HubRestarts, SaveAlert,
      DeleteSystemRow;
    match e
    case StatusWrite(sid, status, alerts, ids) => StatusWriteHistory(s, sid, status, alerts, ids, a);
    case TimerFires(id) => TimerHistory(s, id, a);
    case CreateAlert(id, row) => SaveHistory(s, id, row, a);
    case EditAlert(id, value, min) => SaveHistory(s, id, s.rows[id].(value := value, min := min), a);
    case FlagSystemAlert(id, triggered) => FlagHistory(s, id, triggered, a);
    case DeleteAlert(id) => DeleteHistory(s, id, a);
    case DeleteSystem(sid) => DeleteSystemHistory(s, sid, a);
    case Restart(ids) => RestartHistory(s, ids, a);
    case _ => NoticesFrame(s, Step(s, e), a);
  }

  lemma FlagHistory(s: State, id: AlertId, triggered: bool, a: AlertId)
    requires NoticesOk(s, a) && id in s.rows && s.rows[id].name != STATUS
    ensures NoticesOk(SetTriggered(s, id, triggered), a)
  {
    SaveHistory(s, id, s.rows[id].(triggered := triggered), a);
  }

  lemma {:induction false} RunKeepsNotices(states: seq<State>, events: seq<Event>, k: nat, a: AlertId)
    requires Run(states, events) && k < |states|
    ensures NoticesOk(states[k], a)
  {
    if k > 0 {
      RunKeepsNotices(states, events, k - 1, a);
      RunKeepsInv(states, events, k - 1);
      StepKeepsNotices(states[k - 1], events[k - 1], a);
    }
  }

  // ---------------------------------------------------------------- from histories to indices

  predicate DownNotice(m: Mark, a: AlertId) { m.Sent? && !m.up && m.alert == a }
  predicate UpNotice(m: Mark, a: AlertId) { m.Sent? && m.up && m.alert == a }

  /** A mark that takes an open "down" notice of `a` on `sid` back. */
  predicate TakesBack(m: Mark, a: AlertId, sid: SystemId) {
    UpNotice(m, a) || m == Suspended(sid) || m == Dropped(a) || m == SystemGone(sid)
  }

  /** A mark that voids a plan for `a` on `sid`: recovery, pause, deletion or restart. */
  predicate Voids(m: Mark, a: AlertId, sid: SystemId) {
    || m == TurnedUp(sid) || m == Suspended(sid) || m == Dropped(a) || m == SystemGone(sid)
    || m == Restarted || DownNotice(m, a)
  }

  /** An untaken "down" notice shows in the history. */
  lemma {:induction false} OpenDownShows(log: seq<Mark>, a: AlertId, i: nat)
    requires i < |log| && DownNotice(log[i], a)
    requires forall m | i < m < |log| :: !TakesBack(log[m], a, log[i].system) && !DownNotice(log[m], a)
    ensures PastOf(log, a).down == Some(log[i].system)
    decreases |log|
  {
    if i < |log| - 1 {
      OpenDownShows(log[..|log| - 1], a, i);
    }
  }

  lemma {:induction false} OpenUpShows(log: seq<Mark>, a: AlertId, i: nat)
    requires i < |log| && UpNotice(log[i], a)
    requires forall m | i < m < |log| :: !DownNotice(log[m], a)
    ensures PastOf(log, a).up
    decreases |log|
  {
    if i < |log| - 1 {
      OpenUpShows(log[..|log| - 1], a, i);
    }
  }

  /** A plan in the history points at a mark that nothing has voided since. */
  lemma {:induction false} PlanIsRecorded(log: seq<Mark>, a: AlertId) returns (j: nat)
    requires PastOf(log, a).plan.Some?
    ensures j < |log| && var p := PastOf(log, a).plan.value; log[j] == Scheduled(a, p.system, p.at, p.min)
    ensures forall m | j < m < |log| :: !Voids(log[m], a, PastOf(log, a).plan.value.system)
    decreases |log|
  {
    var init, m := log[..|log| - 1], log[|log| - 1];
    if m.Scheduled? && m.alert == a {
      j := |log| - 1;
    } else {
      j := PlanIsRecorded(init, a);
    }
  }

  lemma {:induction false} OrderlyAt(log: seq<Mark>, a: AlertId, k: nat)
    requires Orderly(log, a) && k < |log|
    ensures Orderly(log[..k], a) && Justified(PastOf(log[..k], a), log[k], a)
    decreases |log|
  {
    if k < |log| - 1 {
      OrderlyAt(log[..|log| - 1], a, k);
      assert log[..|log| - 1][..k] == log[..k];
    }
  }

  /** Two "down" notices of an alert are separated by an "up" notice, by a pause or pending write of its
      system, or by its deletion. */
  lemma DownNoticesAlternate(states: seq<State>, events: seq<Event>, a: AlertId, i: nat, j: nat)
    requires Run(states, events)
    requires var log := states[|states| - 1].log; i < j < |log| && DownNotice(log[i], a) && DownNotice(log[j], a)
    ensures
      var log := states[|states| - 1].log;
      exists m :: i < m < j && exists k :: i <= k < m && DownNotice(log[k], a) && TakesBack(log[m], a, log[k].system)
  {
    var log := states[|states| - 1].log;
    RunKeepsNotices(states, events, |states| - 1, a);
    OrderlyAt(log, a, j);
    var k := LastDown(log, a, i, j);
    if forall m | k < m < j :: !TakesBack(log[m], a, log[k].system) {
      OpenDownShows(log[..j], a, k);
    }
  }

  lemma LastDown(log: seq<Mark>, a: AlertId, i: nat, j: nat) returns (k: nat)
    requires i < j <= |log| && DownNotice(log[i], a)
    ensures i <= k < j && DownNotice(log[k], a) && forall m | k < m < j :: !DownNotice(log[m], a)
    decreases j
  {
    if DownNotice(log[j - 1], a) { k := j - 1; } else { k := LastDown(log, a, i, j - 1); }
  }

  /** Two "up" notices of an alert are separated by a "down" notice. */
  lemma UpNoticesAlternate(states: seq<State>, events: seq<Event>, a: AlertId, i: nat, j: nat)
    requires Run(states, events)
    requires var log := states[|states| - 1].log; i < j < |log| && UpNotice(log[i], a) && UpNotice(log[j], a)
    ensures var log := states[|states| - 1].log; exists m :: i < m < j && DownNotice(log[m], a)
  {
    var log := states[|states| - 1].log;
    RunKeepsNotices(states, events, |states| - 1, a);
    OrderlyAt(log, a, j);
    if forall m | i < m < j :: !DownNotice(log[m], a) {
      OpenUpShows(log[..j], a, i);
    }
  }

  /** No premature notice: a "down" notice sent at time t rests on a scheduling at some t0 with
      t0 + max(1, min) minutes <= t, and since then its system neither turned up nor was paused, and
      the hub did not restart. */
  lemma NoPrematureDown(states: seq<State>, events: seq<Event>, a: AlertId, k: nat) returns (j: nat)
    requires Run(states, events)
    requires var log := states[|states| - 1].log; k < |log| && DownNotice(log[k], a)
    ensures
      var log := states[|states| - 1].log;
      && j < k && log[j].Scheduled? && log[j].alert == a && log[j].system == log[k].system
      && log[j].at + Max(1, log[j].min) * MINUTE <= log[k].at
      && forall m | j < m < k :: !Voids(log[m], a, log[k].system)
  {
    var log := states[|states| - 1].log;
    RunKeepsNotices(states, events, |states| - 1, a);
    OrderlyAt(log, a, k);
    j := PlanIsRecorded(log[..k], a);
  }

  /** Once an alert is pending, no step other than a restart moves its due time. */
  lemma DueNeverMoves(s: State, e: Event, id: AlertId)
    requires Inv(s) && Enabled(s, e) && !e.Restart?
    requires id in s.timers && id in Step(s, e).timers
    ensures Step(s, e).timers[id] == s.timers[id]
  {
    if e.StatusWrite? {
      hide Inv;
      match e.status
      case Up => UpKeepsDue(s, e.sid, e.alerts, id);
      case Down => DownKeepsDue(s, e.sid, e.alerts, id);
      case Paused => PausedKeepsDue(s, e.sid, e.ids, id);
      case Pending => PendingEffect(s, e.sid, e.ids);
      hide OnPaused, OnPending, OnActive;
    }
  }

  lemma UpKeepsDue(s: State, sid: SystemId, alerts: seq<CachedAlert>, id: AlertId)
    requires Inv(s) && sid in s.systems && Lists(alerts, StatusShelf(s, sid)) && id in s.timers
    ensures
      var t := OnActive(Noted(s, sid, Up), sid, Up, Remembered(s, sid), alerts);
      id in t.timers ==> t.timers[id] == s.timers[id]
  {
    var r := Noted(s, sid, Up);
    NotedEffect(s, sid, Up);
    if sid in r.registry && Remembered(s, sid) == Down {
      LoadEffect(r, sid);
      ListedAreStatusRows(s, sid, alerts);
      UpEffect(LoadShelf(r, sid), alerts, sid);
    }
    hide Noted, Synced, TablesOk, RegistryOk, TimersOk, TriggeredOk, Lists, LoadShelf, HandleSystemUp, StatusShelf;
  }

  lemma DownKeepsDue(s: State, sid: SystemId, alerts: seq<CachedAlert>, id: AlertId)
    requires Inv(s) && sid in s.systems && id in s.timers
    ensures
      var t := OnActive(Noted(s, sid, Down), sid, Down, Remembered(s, sid), alerts);
      id in t.timers && t.timers[id] == s.timers[id]
  {
    var r := Noted(s, sid, Down);
    NotedEffect(s, sid, Down);
    DownEffect(LoadShelf(r, sid), alerts);
    hide Noted, Synced, TablesOk, RegistryOk, TimersOk, TriggeredOk, LoadShelf, HandleSystemDown;
  }

  lemma PausedKeepsDue(s: State, sid: SystemId, ids: seq<AlertId>, id: AlertId)
    requires Inv(s) && sid in s.systems && ListsIds(ids, TriggeredOf(s.rows, sid)) && id in s.timers
    ensures
      var t := OnPaused(Noted(s, sid, Paused), sid, ids);
      id in t.timers ==> t.timers[id] == s.timers[id]
  {
    var r := Noted(s, sid, Paused);
    NotedEffect(s, sid, Paused);
    DeactivateEffect(r, ids);
    hide Noted, Synced, TablesOk, RegistryOk, TimersOk, TriggeredOk, DeactivateAlerts;
  }
}
