/** The alerts cache and the tables, over every run: no guard on status writes is needed for these. */
module StatusCache {
  import opened AlertData
  import opened AlertsStore
  import opened StatusProtocol
  import opened StatusInvariant

  ghost predicate CacheOk(s: State) {
    TablesOk(s.systems, s.rows) && RegistryOk(s.systems, s.registry) && Synced(s.store, s.rows)
  }

  lemma PausedKeepsCache(s: State, sid: SystemId, ids: seq<AlertId>)
    requires CacheOk(s) && sid in s.systems && ListsIds(ids, TriggeredOf(s.rows, sid))
    ensures CacheOk(OnPaused(Noted(s, sid, Paused), sid, ids))
  {
    NotedEffect(s, sid, Paused);
    hide Noted, Synced, TablesOk, RegistryOk, DeactivateAlerts;
    DeactivateEffect(Noted(s, sid, Paused), ids);
  }

  lemma PendingKeepsCache(s: State, sid: SystemId, ids: seq<AlertId>)
    requires CacheOk(s) && sid in s.systems && ListsIds(ids, TriggeredOf(s.rows, sid))
    ensures CacheOk(OnPending(Noted(s, sid, Pending), sid, ids))
  {
    hide Noted, Synced, TablesOk, RegistryOk, OnPending;
    PendingEffect(s, sid, ids);
  }

  lemma DownKeepsCache(s: State, sid: SystemId, alerts: seq<CachedAlert>)
    requires CacheOk(s) && sid in s.systems
    ensures CacheOk(OnActive(Noted(s, sid, Down), sid, Down, Remembered(s, sid), alerts))
  {
    var r := Noted(s, sid, Down);
    NotedEffect(s, sid, Down);
    RegisteredEffect(s, sid, Down);
    hide Noted, Synced, TablesOk, RegistryOk, AddRecord, LoadShelf, HandleSystemDown, TimersAdded;
    LoadEffect(r, sid);
    DownEffect(LoadShelf(r, sid), alerts);
  }

  lemma UpKeepsCache(s: State, sid: SystemId, alerts: seq<CachedAlert>)
    requires CacheOk(s) && sid in s.systems && Lists(alerts, StatusShelf(s, sid))
    ensures CacheOk(OnActive(Noted(s, sid, Up), sid, Up, Remembered(s, sid), alerts))
  {
    var r := Noted(s, sid, Up);
    NotedEffect(s, sid, Up);
    RegisteredEffect(s, sid, Up);
    hide Noted, Synced, TablesOk, RegistryOk, AddRecord, LoadShelf, HandleSystemUp, Lists, StatusShelf, Cleared;
    LoadEffect(r, sid);
    ListedAreStatusRows(s, sid, alerts);
    UpEffect(LoadShelf(r, sid), alerts, sid);
    hide Current;
  }

  lemma StatusWriteKeepsCache(s: State, sid: SystemId, status: Status, alerts: seq<CachedAlert>, ids: seq<AlertId>)
    requires CacheOk(s) && sid in s.systems
    requires Lists(alerts, StatusShelf(s, sid)) && ListsIds(ids, TriggeredOf(s.rows, sid))
    ensures CacheOk(OnStatusWrite(s, sid, status, alerts, ids))
  {
    hide CacheOk, Lists, OnPaused, OnPending, OnActive, Noted;
    match status
    case Up => UpKeepsCache(s, sid, alerts);
    case Down => DownKeepsCache(s, sid, alerts);
    case Paused => PausedKeepsCache(s, sid, ids);
    case Pending => PendingKeepsCache(s, sid, ids);
  }

  lemma TimerKeepsCache(s: State, id: AlertId)
    requires CacheOk(s) && id in s.timers
    ensures CacheOk(ProcessPendingAlert(s, id))
  {
    var a := s.timers[id].alert;
    if Lookup(s.store, a.systemId, a.id).0 {
      SetTriggeredEffect(s.(timers := s.timers - {id}), a.id, true);
    }
  }

  lemma SaveKeepsCache(s: State, id: AlertId, row: AlertRecord)
    requires CacheOk(s) && id != "" && row.system in s.systems && (id in s.rows ==> s.rows[id].system == row.system)
    ensures CacheOk(SaveAlert(s, id, row))
  {
    SaveKeepsSynced(s, id, row);
    hide Synced;
  }

  lemma DeletionsKeepCache(s: State, e: Event)
    requires CacheOk(s) && Enabled(s, e) && (e.DeleteAlert? || e.DeleteSystem?)
    ensures CacheOk(Step(s, e))
  {
    if e.DeleteAlert? {
      DeleteKeepsSynced(s.store, s.rows, e.id);
    } else {
      DeleteSystemKeepsSynced(s, e.sid);
    }
    hide Synced;
  }

  lemma RestartKeepsCache(s: State, ids: seq<AlertId>)
    requires CacheOk(s) && ListsIds(ids, set id | id in s.rows && Restorable(s, id))
    ensures CacheOk(HubRestarts(s, ids))
  {
    PopulatedSynced(s.rows);
    RestoreEffect(Booted(s), ids);
    RestartedRegistryOk(s, ids);
    hide RestorePending, Populated, Synced, TimersAdded, Projections, RegistryOk, TablesOk;
  }

  lemma CreationKeepsCache(s: State, sid: SystemId, host: string)
    requires CacheOk(s) && sid != "" && host != "" && sid !in s.systems
    ensures CacheOk(Step(s, CreateSystem(sid, host)))
  {
    var t := s.(systems := s.systems[sid := System(Pending, host)]);
    ReRegistered(s.systems, t.systems, s.registry, AddRecord(t, sid, false).registry, sid);
    hide Synced, RegistryOk;
  }

  lemma ConnectionKeepsCache(s: State, sid: SystemId)
    requires CacheOk(s) && sid in s.systems
    ensures CacheOk(Step(s, AgentConnects(sid)))
  {
    ReRegistered(s.systems, s.systems, s.registry, AddRecord(s, sid, true).registry, sid);
    hide Synced, RegistryOk;
  }

  lemma QuietKeepsCache(s: State, e: Event)
    requires CacheOk(s) && Enabled(s, e) && (e.Tick? || e.ConnectionLost? || e.PausedSystemRemoved?)
    ensures CacheOk(Step(s, e))
  {
    hide Synced, TablesOk;
  }

  /** Every step the environment can take, a down-to-pending write included, keeps the cache exact. */
  lemma StepKeepsCache(s: State, e: Event)
    requires CacheOk(s) && Enabled(s, e)
    ensures CacheOk(Step(s, e))
  {
    match e
    case StatusWrite(sid, status, alerts, ids) => StatusWriteKeepsCache(s, sid, status, alerts, ids); hide *;
    case TimerFires(id) => TimerKeepsCache(s, id); hide *;
    case CreateAlert(id, row) => SaveKeepsCache(s, id, row); hide *;
    case EditAlert(id, value, min) => SaveKeepsCache(s, id, s.rows[id].(value := value, min := min));
    case FlagSystemAlert(id, triggered) => SaveKeepsCache(s, id, s.rows[id].(triggered := triggered));
    case Restart(ids) => RestartKeepsCache(s, ids); hide *;
    case DeleteAlert(_) => DeletionsKeepCache(s, e);
    case DeleteSystem(_) => DeletionsKeepCache(s, e);
    case CreateSystem(sid, host) => CreationKeepsCache(s, sid, host);
    case AgentConnects(sid) => ConnectionKeepsCache(s, sid);
    case Tick(_) => QuietKeepsCache(s, e);
    case ConnectionLost(_) => QuietKeepsCache(s, e);
    case PausedSystemRemoved(_) => QuietKeepsCache(s, e);
  }

  /** Any sequence of enabled events from a fresh hub. */
  ghost predicate AnyRun(states: seq<State>, events: seq<Event>) {
    && |states| == |events| + 1
    && (exists now :: states[0] == Initial(now))
    && (forall i | 0 <= i < |events| :: Enabled(states[i], events[i]) && states[i + 1] == Step(states[i], events[i]))
  }

  lemma {:induction false} AnyRunKeepsCache(states: seq<State>, events: seq<Event>, k: nat)
    requires AnyRun(states, events) && k < |states|
    ensures CacheOk(states[k])
  {
    hide Enabled, Step;
    if k > 0 {
      AnyRunKeepsCache(states, events, k - 1);
      StepKeepsCache(states[k - 1], events[k - 1]);
    }
  }

  /** In every state the hub can reach at all, the cache answers for each system with exactly its rows. */
  lemma {:induction false} CacheAnswersExactly(states: seq<State>, events: seq<Event>, k: nat, sid: SystemId)
    requires AnyRun(states, events) && k < |states|
    ensures Loaded(states[k].store, states[k].rows, sid)[sid] == RowsOf(states[k].rows, sid)
  {
    AnyRunKeepsCache(states, events, k);
    hide AnyRun;
    SyncedLoadIsExact(states[k].store, states[k].rows, sid);
  }

  /** In particular no shelf is ever missing for a system that has alerts, so an alert is never saved into the state
      in which InsertBeforePopulation finds the cache to fail. */
  lemma {:induction false} NoShelfIsMissing(states: seq<State>, events: seq<Event>, k: nat, id: AlertId)
    requires AnyRun(states, events) && k < |states| && id in states[k].rows
    ensures states[k].rows[id].system in states[k].store && id in states[k].store[states[k].rows[id].system]
  {
    AnyRunKeepsCache(states, events, k);
    hide AnyRun;
  }
}
