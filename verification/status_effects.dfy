/** What each event of the status protocol does to tables, timers, registry and notices, field by field. */
module StatusEffects {
  import opened Numbers
  import opened AlertData
  import opened AlertsStore
  import opened StatusProtocol
  import opened StatusInvariant
  import Hub = StatusHub

  /** The log only grew, and nothing was sent. */
  predicate Silent(log: seq<Mark>, log': seq<Mark>) {
    && |log| <= |log'| && log'[..|log|] == log
    && forall i | |log| <= i < |log'| :: !log'[i].Sent?
  }

  // ---------------------------------------------------------------- timers

  /** A timer that fires sends its notice: it is gone, its row is triggered, and the log grew by exactly one "down"
      notice for it. If the alert was deleted meanwhile nothing but the timer goes. */
  lemma TimerSends(s: State, id: AlertId)
    requires Inv(s) && Enabled(s, TimerFires(id))
    ensures
      var t := Step(s, TimerFires(id));
      && t == s.(timers := s.timers - {id}, rows := t.rows, store := t.store, log := t.log)
      && (id in s.rows ==>
            && t.rows == s.rows[id := s.rows[id].(triggered := true)]
            && t.log == s.log + [Sent(false, id, s.rows[id].system, s.now)])
      && (id !in s.rows ==> t.rows == s.rows && t.log == s.log)
  {
    hide Updated, RegistryOk, TriggeredOk;
  }

  // ---------------------------------------------------------------- going down

  lemma SilentTrans(a: seq<Mark>, b: seq<Mark>, c: seq<Mark>)
    requires Silent(a, b) && Silent(b, c)
    ensures Silent(a, c)
  {
    forall i | |a| <= i < |c| ensures !c[i].Sent? {
      if i < |b| { assert c[..|b|][i] == b[i]; }
    }
    assert c[..|a|] == c[..|b|][..|a|];
  }

  lemma {:induction false} DownLog(s: State, alerts: seq<CachedAlert>)
    ensures Silent(s.log, HandleSystemDown(s, alerts).log)
    decreases |alerts|
  {
    if alerts != [] {
      var s1 := Schedule(s, alerts[0]);
      assert Silent(s.log, s1.log);
      hide Silent, Schedule;
      DownLog(s1, alerts[1..]);
      SilentTrans(s.log, s1.log, HandleSystemDown(s1, alerts[1..]).log);
    }
  }

  lemma DownStep(s: State, sid: SystemId, alerts: seq<CachedAlert>, ids: seq<AlertId>) returns (l: State)
    requires Inv(s) && Enabled(s, StatusWrite(sid, Down, alerts, ids)) && s.systems[sid].status == Up
    ensures Step(s, StatusWrite(sid, Down, alerts, ids)) == HandleSystemDown(l, alerts)
    ensures l.now == s.now && l.rows == s.rows && l.timers == s.timers && l.log == s.log
    ensures l.systems == s.systems[sid := s.systems[sid].(status := Down)]
    ensures Current(s, alerts, sid)
    ensures Ids(alerts) == set id | id in s.rows && s.rows[id].system == sid && s.rows[id].name == STATUS
  {
    hide Synced, TablesOk, Lists, StatusShelf, ListsIds, Loaded, HandleSystemDown;
    l := LoadShelf(Noted(s, sid, Down), sid);
    NotedEffect(s, sid, Down);
    ListedAreStatusRows(s, sid, alerts);
    assert Noted(s, sid, Down).log == s.log + [] + [];
  }

  /** A system that goes down: exactly its Status alerts become pending, each due after as many minutes as its row
      says, at least one; timers already running stay as they are; nothing is sent and no row changes. */
  lemma GoingDown(s: State, sid: SystemId, alerts: seq<CachedAlert>, ids: seq<AlertId>)
    requires Inv(s) && Enabled(s, StatusWrite(sid, Down, alerts, ids)) && s.systems[sid].status == Up
    ensures
      var t := Step(s, StatusWrite(sid, Down, alerts, ids));
      && t.rows == s.rows && t.systems == s.systems[sid := s.systems[sid].(status := Down)]
      && Silent(s.log, t.log)
      && (forall id :: id in t.timers <==>
            id in s.timers || (id in s.rows && s.rows[id].system == sid && s.rows[id].name == "Status"))
      && (forall id | id in s.timers :: t.timers[id] == s.timers[id])
      && (forall id | id in t.timers && id !in s.timers ::
            t.timers[id].due == s.now + 60 * (if s.rows[id].min % 256 < 1 then 1 else s.rows[id].min % 256))
  {
    hide Inv, Enabled, Step, Silent, HandleSystemDown, Ids, Current, IdsOf, Elems;
    var l := DownStep(s, sid, alerts, ids);
    DownEffect(l, alerts);
    DownLog(l, alerts);
    DownTimers(s, HandleSystemDown(l, alerts), sid, alerts);
  }

  lemma DownTimers(s: State, t: State, sid: SystemId, alerts: seq<CachedAlert>)
    requires Current(s, alerts, sid)
    requires Ids(alerts) == set id | id in s.rows && s.rows[id].system == sid && s.rows[id].name == STATUS
    requires t.timers.Keys == s.timers.Keys + IdsOf(Elems(alerts))
    requires forall id | id in t.timers && id !in s.timers ::
      var a := t.timers[id].alert; a in Elems(alerts) && a.id == id && t.timers[id].due == s.now + Minutes(a) * MINUTE
    ensures forall id :: id in t.timers <==>
      id in s.timers || (id in s.rows && s.rows[id].system == sid && s.rows[id].name == "Status")
    ensures forall id | id in t.timers && id !in s.timers ::
      t.timers[id].due == s.now + 60 * (if s.rows[id].min % 256 < 1 then 1 else s.rows[id].min % 256)
  {
    assert IdsOf(Elems(alerts)) == Ids(alerts);
    assert forall id :: id in Ids(alerts) <==> id in s.rows && s.rows[id].system == sid && s.rows[id].name == STATUS;
  }

  // ---------------------------------------------------------------- coming up

  function UpMarks(pending: set<AlertId>, alerts: seq<CachedAlert>, now: nat): seq<Mark> {
    if alerts == [] then []
    else
      var a := alerts[0];
      (if a.id !in pending && a.triggered then [Sent(true, a.id, a.systemId, now)] else [])
      + UpMarks(pending, alerts[1..], now)
  }

  lemma {:induction false} UpMarksSame(p: set<AlertId>, q: set<AlertId>, alerts: seq<CachedAlert>, now: nat)
    requires forall a | a in alerts :: a.id in p <==> a.id in q
    ensures UpMarks(p, alerts, now) == UpMarks(q, alerts, now)
  {
    if alerts != [] { UpMarksSame(p, q, alerts[1..], now); }
  }

  lemma OneUpLog(s: State, a: CachedAlert)
    requires a.id in s.rows && a == Project(a.id, s.rows[a.id])
    ensures HandleOneUp(s, a).log == s.log + UpMarks(s.timers.Keys, [a], s.now)
  {
    assert UpMarks(s.timers.Keys, [a][1..], s.now) == [];
  }

  lemma UpMarksFirst(p: set<AlertId>, alerts: seq<CachedAlert>, now: nat)
    requires alerts != []
    ensures UpMarks(p, alerts, now) == UpMarks(p, [alerts[0]], now) + UpMarks(p, alerts[1..], now)
  {
    assert UpMarks(p, [alerts[0]][1..], now) == [];
  }

  lemma {:induction false} UpLog(s: State, alerts: seq<CachedAlert>, sid: SystemId)
    requires TablesOk(s.systems, s.rows) && Synced(s.store, s.rows) && Current(s, alerts, sid)
    ensures HandleSystemUp(s, alerts).log == s.log + UpMarks(s.timers.Keys, alerts, s.now)
    decreases |alerts|
  {
    hide HandleOneUp, TablesOk, Synced, UpMarks, Cleared;
    if alerts == [] {
      NoUpMarks(s.timers.Keys, s.now);
    } else {
      var s1, p := HandleOneUp(s, alerts[0]), s.timers.Keys;
      UpOneEffect(s, alerts[0]);
      OneUpLog(s, alerts[0]);
      CurrentTail(s, s1, alerts, sid);
      UpLog(s1, alerts[1..], sid);
      forall b | b in alerts[1..] ensures b.id in s1.timers.Keys <==> b.id in p {
        assert b.id in Ids(alerts[1..]);
      }
      UpMarksSame(p, s1.timers.Keys, alerts[1..], s.now);
      UpMarksFirst(p, alerts, s.now);
    }
  }

  lemma NoUpMarks(p: set<AlertId>, now: nat)
    ensures UpMarks(p, [], now) == []
  {}

  /** Who is told that a system is up again. */
  ghost function Announced(rows: Rows, sid: SystemId, now: nat): set<Mark> {
    set id | id in rows && rows[id].system == sid && rows[id].name == "Status" && rows[id].triggered ::
      Sent(true, id, sid, now)
  }

  lemma {:induction false} UpMarksOnce(s: State, alerts: seq<CachedAlert>, sid: SystemId, m: Mark)
    requires Current(s, alerts, sid) && forall id | id in s.timers && id in s.rows :: !s.rows[id].triggered
    ensures multiset(UpMarks(s.timers.Keys, alerts, s.now))[m]
            == if exists a :: a in alerts && a.triggered && m == Sent(true, a.id, sid, s.now) then 1 else 0
  {
    if alerts == [] {
    } else {
      var a, rest := alerts[0], alerts[1..];
      assert alerts == [a] + rest;
      RestCurrent(s, alerts, sid);
      UpMarksOnce(s, rest, sid, m);
      if a.triggered && m == Sent(true, a.id, sid, s.now) {
        assert a in alerts;
        assert !exists b :: b in rest && b.triggered && m == Sent(true, b.id, sid, s.now);
      } else if b :| b in alerts && b.triggered && m == Sent(true, b.id, sid, s.now) {
        assert b in rest;
      }
      hide Current;
    }
  }

  lemma RestCurrent(s: State, alerts: seq<CachedAlert>, sid: SystemId)
    requires alerts != [] && Current(s, alerts, sid)
    ensures Current(s, alerts[1..], sid) && (forall b | b in alerts[1..] :: b.id != alerts[0].id)
    ensures alerts[0].id in s.rows && alerts[0].systemId == sid && (alerts[0].id in s.timers && alerts[0].triggered ==>
              s.rows[alerts[0].id].triggered)
  {}

  /** A system that comes up after having been down: each of its triggered Status alerts is announced as up exactly
      once, at this time, and nothing else is sent; its pending and triggered Status alerts are neither any
      more; all other rows and timers stay as they are. */
  lemma ComingUp(s: State, sid: SystemId, alerts: seq<CachedAlert>, ids: seq<AlertId>)
    requires Inv(s) && Enabled(s, StatusWrite(sid, Up, alerts, ids)) && s.systems[sid].status == Down
    ensures
      var t := Step(s, StatusWrite(sid, Up, alerts, ids));
      && t.systems == s.systems[sid := s.systems[sid].(status := Up)] && t.rows.Keys == s.rows.Keys
      && |s.log| <= |t.log| && t.log[..|s.log|] == s.log
      && multiset(t.log[|s.log|..]) == multiset{TurnedUp(sid)} + multiset(Announced(s.rows, sid, s.now))
      && (forall id | id in s.rows ::
            t.rows[id] == if s.rows[id].system == sid && s.rows[id].name == "Status"
                          then s.rows[id].(triggered := false) else s.rows[id])
      && (forall id :: id in t.timers <==>
            id in s.timers && !(id in s.rows && s.rows[id].system == sid && s.rows[id].name == "Status"))
      && (forall id | id in t.timers :: t.timers[id] == s.timers[id])
  {
    hide Inv, Enabled, Step, HandleSystemUp, Ids, Current, Cleared, Announced, UpMarks, TablesOk, Synced;
    var l := UpStep(s, sid, alerts, ids);
    UpEffect(l, alerts, sid);
    UpLog(l, alerts, sid);
    UpNotices(s, alerts, sid);
    UpRows(s, HandleSystemUp(l, alerts), alerts, sid);
    AppendMarks(s.log, TurnedUp(sid), UpMarks(s.timers.Keys, alerts, s.now));
  }

  lemma AppendMarks(log: seq<Mark>, m: Mark, ms: seq<Mark>)
    ensures
      var log' := log + [m] + ms;
      log'[..|log|] == log && multiset(log'[|log|..]) == multiset{m} + multiset(ms)
  {
    assert (log + [m] + ms)[|log|..] == [m] + ms;
  }

  lemma UpStep(s: State, sid: SystemId, alerts: seq<CachedAlert>, ids: seq<AlertId>) returns (l: State)
    requires Inv(s) && Enabled(s, StatusWrite(sid, Up, alerts, ids)) && s.systems[sid].status == Down
    ensures Step(s, StatusWrite(sid, Up, alerts, ids)) == HandleSystemUp(l, alerts)
    ensures l.now == s.now && l.rows == s.rows && l.timers == s.timers && l.log == s.log + [TurnedUp(sid)]
    ensures l.systems == s.systems[sid := s.systems[sid].(status := Up)]
    ensures TablesOk(l.systems, l.rows) && Synced(l.store, l.rows) && Current(l, alerts, sid) && Current(s, alerts, sid)
    ensures Ids(alerts) == set id | id in s.rows && s.rows[id].system == sid && s.rows[id].name == STATUS
    ensures forall id | id in s.timers && id in s.rows :: !s.rows[id].triggered
  {
    hide Synced, TablesOk, Lists, StatusShelf, ListsIds, HandleSystemUp;
    var r := Noted(s, sid, Up);
    NotedEffect(s, sid, Up);
    LoadEffect(r, sid);
    l := LoadShelf(r, sid);
    ListedAreStatusRows(s, sid, alerts);
    assert r.log == s.log + [TurnedUp(sid)] + [];
  }

  lemma UpNotices(s: State, alerts: seq<CachedAlert>, sid: SystemId)
    requires Current(s, alerts, sid) && forall id | id in s.timers && id in s.rows :: !s.rows[id].triggered
    requires Ids(alerts) == set id | id in s.rows && s.rows[id].system == sid && s.rows[id].name == STATUS
    ensures multiset(UpMarks(s.timers.Keys, alerts, s.now)) == multiset(Announced(s.rows, sid, s.now))
  {
    forall m
      ensures multiset(UpMarks(s.timers.Keys, alerts, s.now))[m] == multiset(Announced(s.rows, sid, s.now))[m]
    {
      UpMarksOnce(s, alerts, sid, m);
      WhoIsTold(s, alerts, sid, m);
    }
  }

  lemma WhoIsTold(s: State, alerts: seq<CachedAlert>, sid: SystemId, m: Mark)
    requires Current(s, alerts, sid)
    requires Ids(alerts) == set id | id in s.rows && s.rows[id].system == sid && s.rows[id].name == STATUS
    ensures m in Announced(s.rows, sid, s.now) <==>
            exists a :: a in alerts && a.triggered && m == Sent(true, a.id, sid, s.now)
  {
    if m in Announced(s.rows, sid, s.now) {
      assert m.alert in Ids(alerts);
      var a :| a in alerts && a.id == m.alert;
      assert a.triggered && m == Sent(true, a.id, sid, s.now);
    }
    if a :| a in alerts && a.triggered && m == Sent(true, a.id, sid, s.now) {
      assert a.id in Ids(alerts) && s.rows[a.id].triggered;
    }
  }

  lemma UpRows(s: State, t: State, alerts: seq<CachedAlert>, sid: SystemId)
    requires forall id | id in s.timers && id in s.rows :: !s.rows[id].triggered
    requires Ids(alerts) == set id | id in s.rows && s.rows[id].system == sid && s.rows[id].name == STATUS
    requires Cleared(s.rows, t.rows, Ids(alerts) - s.timers.Keys) && t.timers == s.timers - Ids(alerts)
    ensures t.rows.Keys == s.rows.Keys
    ensures forall id | id in s.rows ::
      t.rows[id] == if s.rows[id].system == sid && s.rows[id].name == "Status"
                    then s.rows[id].(triggered := false) else s.rows[id]
    ensures forall id :: id in t.timers <==>
      id in s.timers && !(id in s.rows && s.rows[id].system == sid && s.rows[id].name == "Status")
  {
    var own := Ids(alerts);
    assert forall id :: id in own <==> id in s.rows && s.rows[id].system == sid && s.rows[id].name == STATUS;
    hide Ids;
  }

  // ---------------------------------------------------------------- pausing, pending, and other writes

  /** A system that is paused: it has no pending alerts any more and none of its rows is triggered; everything else
      stays as it is and nothing is sent. */
  lemma Pausing(s: State, sid: SystemId, alerts: seq<CachedAlert>, ids: seq<AlertId>)
    requires Inv(s) && Enabled(s, StatusWrite(sid, Paused, alerts, ids))
    ensures
      var t := Step(s, StatusWrite(sid, Paused, alerts, ids));
      && t.systems == s.systems[sid := s.systems[sid].(status := Paused)]
      && t.log == s.log + [Suspended(sid)] && t.rows.Keys == s.rows.Keys
      && (forall id | id in s.rows ::
            t.rows[id] == if s.rows[id].system == sid then s.rows[id].(triggered := false) else s.rows[id])
      && (forall id :: id in t.timers <==> id in s.timers && s.timers[id].alert.systemId != sid)
      && (forall id | id in t.timers :: t.timers[id] == s.timers[id])
  {
    hide Synced, TablesOk, RegistryOk, Lists, StatusShelf, TimersOk, TriggeredOk, DeactivateAlerts;
    var r := Noted(s, sid, Paused);
    NotedEffect(s, sid, Paused);
    assert r.log == s.log + [] + [Suspended(sid)];
    hide Noted;
    DeactivateEffect(r, ids);
    WholeSystemCleared(s.rows, DeactivateAlerts(r, ids).rows, sid, ids);
    hide Cleared, ListsIds, TriggeredOf, Elems;
  }

  lemma WholeSystemCleared(before: Rows, after: Rows, sid: SystemId, ids: seq<AlertId>)
    requires ListsIds(ids, TriggeredOf(before, sid)) && Cleared(before, after, Elems(ids))
    ensures after.Keys == before.Keys
    ensures forall id | id in before ::
      after[id] == if before[id].system == sid then before[id].(triggered := false) else before[id]
  {
    forall id | id in before
      ensures after[id] == if before[id].system == sid then before[id].(triggered := false) else before[id]
    {
      assert id in Elems(ids) <==> id in TriggeredOf(before, sid);
    }
  }

  lemma NotedExactly(s: State, sid: SystemId, status: Status)
    requires TablesOk(s.systems, s.rows) && sid in s.systems
    ensures
      var r := Noted(s, sid, status);
      && r == s.(systems := r.systems, registry := r.registry, log := r.log)
      && r.systems == s.systems[sid := s.systems[sid].(status := status)]
      && r.registry == (if sid in s.registry then s.registry[sid := Entry(status, s.registry[sid].connected)]
                        else s.registry)
      && r.log == s.log + (if s.systems[sid].status == Down && status == Up then [TurnedUp(sid)]
                           else if status == Paused || status == Pending then [Suspended(sid)] else [])
    ensures sid != "" && s.systems[sid].host != ""
  {}

  /** A system that is written as pending: with a connection attached nothing else happens; otherwise it is registered
      anew and none of its rows is triggered. Timers stay and nothing is sent. */
  lemma WritingPending(s: State, sid: SystemId, alerts: seq<CachedAlert>, ids: seq<AlertId>)
    requires Inv(s) && Enabled(s, StatusWrite(sid, Pending, alerts, ids))
    ensures
      var t := Step(s, StatusWrite(sid, Pending, alerts, ids));
      var connected := sid in s.registry && s.registry[sid].connected;
      && t.systems == s.systems[sid := s.systems[sid].(status := Pending)] && t.timers == s.timers
      && t.log == s.log + [Suspended(sid)] && t.rows.Keys == s.rows.Keys
      && t.registry == s.registry[sid := Entry(Pending, connected)]
      && (forall id | id in s.rows ::
            t.rows[id] == if s.rows[id].system == sid && !connected
                          then s.rows[id].(triggered := false) else s.rows[id])
  {
    hide Noted, Synced, RegistryOk, Lists, StatusShelf, TimersOk, TriggeredOk, DeactivateAlerts, TablesOk;
    var r := Noted(s, sid, Pending);
    NotedExactly(s, sid, Pending);
    NotedEffect(s, sid, Pending);
    var a := AddRecord(r, sid, false);
    DeactivateEffect(a, ids);
    WholeSystemCleared(s.rows, DeactivateAlerts(a, ids).rows, sid, ids);
    hide Cleared, ListsIds, TriggeredOf, Elems;
  }

  /** A system that is written as up or down without coming from the other of the two: no row and no timer changes and
      nothing is sent; an unregistered system is registered. */
  lemma NoTransition(s: State, sid: SystemId, status: Status, alerts: seq<CachedAlert>, ids: seq<AlertId>)
    requires Inv(s) && Enabled(s, StatusWrite(sid, status, alerts, ids))
    requires (status == Up && s.systems[sid].status != Down) || (status == Down && s.systems[sid].status != Up)
    ensures
      var t := Step(s, StatusWrite(sid, status, alerts, ids));
      && t.systems == s.systems[sid := s.systems[sid].(status := status)]
      && t.rows == s.rows && t.timers == s.timers && t.log == s.log
      && t.registry == s.registry[sid := Entry(status, sid in s.registry && s.registry[sid].connected)]
  {
    hide Noted, Synced, TablesOk, RegistryOk, Lists, StatusShelf, TimersOk, TriggeredOk, ListsIds, Loaded;
    NotedExactly(s, sid, status);
    NotedEffect(s, sid, status);
  }

  // ---------------------------------------------------------------- the other events

  /** Restart: rows and systems survive, nothing is sent, exactly the untriggered Status alerts of down systems are
      pending, each for its full delay again, and every system that is not paused is registered. */
  lemma Restarting(s: State, ids: seq<AlertId>)
    requires Inv(s) && Enabled(s, Restart(ids))
    ensures
      var t := Step(s, Restart(ids));
      && t.now == s.now && t.rows == s.rows && t.systems == s.systems && Silent(s.log, t.log)
      && (forall id :: id in t.timers <==>
            id in s.rows && s.rows[id].name == "Status" && !s.rows[id].triggered
            && s.rows[id].system in s.systems && s.systems[s.rows[id].system].status == Down)
      && (forall id | id in t.timers ::
            t.timers[id].due == s.now + 60 * (if s.rows[id].min % 256 < 1 then 1 else s.rows[id].min % 256))
      && (forall sid :: sid in t.registry <==> sid in s.systems && s.systems[sid].status != Paused)
      && (forall sid | sid in t.registry :: t.registry[sid] == Entry(s.systems[sid].status, false))
  {
    RestartRecovers(s, ids);
    RestartStep(s, ids);
    RestartDelays(s, Step(s, Restart(ids)));
    hide *;
  }

  lemma RestartStep(s: State, ids: seq<AlertId>)
    requires Inv(s) && Enabled(s, Restart(ids))
    ensures
      var t := Step(s, Restart(ids));
      && t.now == s.now && t.rows == s.rows && t.systems == s.systems && Silent(s.log, t.log)
      && (forall sid :: sid in t.registry <==> sid in s.systems && s.systems[sid].status != Paused)
      && (forall sid | sid in t.registry :: t.registry[sid] == Entry(s.systems[sid].status, false))
  {
    PopulatedSynced(s.rows);
    hide Synced, RegistryOk, TimersOk, TriggeredOk, RestorePending, Populated, TimersAdded;
    var b := Booted(s);
    RestoreEffect(b, ids);
    RestoreLog(b, ids);
    assert Silent(s.log, b.log);
    hide Silent, ListsIds, Projections;
    SilentTrans(s.log, b.log, RestorePending(b, ids).log);
  }

  lemma RestartDelays(s: State, t: State)
    requires forall id :: id in t.timers <==> id in s.rows && Restorable(s, id)
    requires forall id | id in t.timers :: t.timers[id].due == s.now + Minutes(Project(id, s.rows[id])) * MINUTE
    ensures forall id :: id in t.timers <==>
      id in s.rows && s.rows[id].name == "Status" && !s.rows[id].triggered
      && s.rows[id].system in s.systems && s.systems[s.rows[id].system].status == Down
    ensures forall id | id in t.timers ::
      t.timers[id].due == s.now + 60 * (if s.rows[id].min % 256 < 1 then 1 else s.rows[id].min % 256)
  {}

  lemma {:induction false} RestoreLog(s: State, ids: seq<AlertId>)
    requires forall id | id in ids :: id in s.rows
    ensures Silent(s.log, RestorePending(s, ids).log)
    decreases |ids|
  {
    if ids != [] {
      var (ok, a) := Lookup(s.store, s.rows[ids[0]].system, ids[0]);
      var s1 := if ok then Schedule(s, a) else s;
      assert Silent(s.log, s1.log);
      hide Silent, Schedule, Lookup;
      RestoreLog(s1, ids[1..]);
      SilentTrans(s.log, s1.log, RestorePending(s1, ids[1..]).log);
    }
  }

  /** An agent that connects registers its system with its stored status and the connection attached; a lost
      connection is detached again. Neither touches rows, timers or notices. */
  lemma Connections(s: State, sid: SystemId)
    requires Inv(s) && sid in s.systems
    ensures Step(s, AgentConnects(sid)) == s.(registry := s.registry[sid := Entry(s.systems[sid].status, true)])
    ensures sid in s.registry ==>
      Step(s, ConnectionLost(sid)) == s.(registry := s.registry[sid := Entry(s.registry[sid].status, false)])
  {
    hide Synced, TimersOk, TriggeredOk;
  }

  /** Created, edited and deleted alerts and systems change exactly their own rows; deleting a system takes its alerts
      along; no timer is touched and nothing is sent. */
  lemma TableEvents(s: State, id: AlertId, row: AlertRecord, value: real, min: int, sid: SystemId, host: string)
    ensures Enabled(s, CreateAlert(id, row)) ==>
      var t := Step(s, CreateAlert(id, row)); t == s.(rows := s.rows[id := row], store := t.store)
    ensures id in s.rows ==>
      var t := Step(s, EditAlert(id, value, min));
      t == s.(rows := s.rows[id := s.rows[id].(value := value, min := min)], store := t.store)
    ensures id in s.rows ==>
      var t := Step(s, DeleteAlert(id));
      t == s.(rows := s.rows - {id}, store := t.store, log := s.log + [Dropped(id)])
    ensures Enabled(s, CreateSystem(sid, host)) ==>
      Step(s, CreateSystem(sid, host))
      == s.(systems := s.systems[sid := System(Pending, host)], registry := s.registry[sid := Entry(Pending, false)])
    ensures sid in s.systems ==>
      var t := Step(s, DeleteSystem(sid));
      && t == s.(systems := s.systems - {sid}, registry := s.registry - {sid}, rows := t.rows, store := t.store,
                 log := s.log + [SystemGone(sid)])
      && (forall k :: k in t.rows <==> k in s.rows && s.rows[k].system != sid)
      && (forall k | k in t.rows :: t.rows[k] == s.rows[k])
  {
    hide Updated, Deleted;
  }

  /** Time only passes; flagging a threshold alert changes its flag; a paused system may leave the registry. */
  lemma QuietEvents(s: State, d: nat, id: AlertId, triggered: bool, sid: SystemId)
    ensures Step(s, Tick(d)) == s.(now := s.now + d)
    ensures id in s.rows && s.rows[id].name != "Status" ==>
      var t := Step(s, FlagSystemAlert(id, triggered));
      t == s.(rows := s.rows[id := s.rows[id].(triggered := triggered)], store := t.store)
    ensures sid in s.registry && s.registry[sid].status == Paused ==>
      Step(s, PausedSystemRemoved(sid)) == s.(registry := s.registry - {sid})
  {
    hide Updated;
  }

  /** Whatever the state, any status of a system can be written: its alerts can always be listed. */
  lemma {:induction false} AnyStatusCanBeWritten(s: State, sid: SystemId, status: Status)
    requires Inv(s) && sid in s.systems
    ensures exists alerts, ids :: Enabled(s, StatusWrite(sid, status, alerts, ids))
  {
    hide TablesOk, RegistryOk, TimersOk, TriggeredOk;
    SyncedLoadIsExact(s.store, s.rows, sid);
    hide Loaded, Synced;
    assert forall id | id in StatusShelf(s, sid) :: StatusShelf(s, sid)[id] == Project(id, s.rows[id]);
    var alerts := Hub.SomeListing(StatusShelf(s, sid));
    var ids := Hub.SomeIds(TriggeredOf(s.rows, sid));
    assert Enabled(s, StatusWrite(sid, status, alerts, ids));
  }

  // ---------------------------------------------------------------- announced in the end

  /** Events after which an alert may no longer be pending: its own timer or deletion, a restart, or its system coming
      up, being suspended or deleted. */
  predicate Interrupts(e: Event, id: AlertId, sid: SystemId) {
    match e
    case TimerFires(x) => x == id
    case DeleteAlert(x) => x == id
    case StatusWrite(x, status, _, _) => x == sid && status != Down
    case DeleteSystem(x) => x == sid
    case Restart(_) => true
    case _ => false
  }

  lemma StaysPending(s: State, e: Event, id: AlertId)
    requires Inv(s) && Enabled(s, e) && id in s.rows && id in s.timers && !Interrupts(e, id, s.rows[id].system)
    ensures
      var t := Step(s, e);
      id in t.timers && t.timers[id] == s.timers[id] && id in t.rows && t.rows[id].system == s.rows[id].system
  {
    var sid := s.rows[id].system;
    match e
    case StatusWrite(x, status, alerts, ids) =>
      assert s.timers[id].alert.systemId == sid && s.systems[sid].status == Down;
      WriteKeepsPending(s, x, status, alerts, ids, id);
    case TimerFires(x) => TimerSends(s, x);
    case Tick(_) =>
    case CreateAlert(x, row) =>
    case EditAlert(x, value, min) =>
    case DeleteAlert(x) =>
    case FlagSystemAlert(x, triggered) =>
    case CreateSystem(x, host) =>
    case DeleteSystem(x) =>
    case AgentConnects(x) =>
    case ConnectionLost(x) =>
    case PausedSystemRemoved(x) =>
  }

  lemma WriteKeepsPending(
    s: State, x: SystemId, status: Status, alerts: seq<CachedAlert>, ids: seq<AlertId>, id: AlertId)
    requires Inv(s) && Enabled(s, StatusWrite(x, status, alerts, ids)) && x in s.systems
    requires id in s.rows && id in s.timers
    requires s.timers[id].alert.systemId == s.rows[id].system && (x == s.rows[id].system ==> status == Down)
    requires x == s.rows[id].system ==> s.systems[x].status == Down
    ensures
      var t := Step(s, StatusWrite(x, status, alerts, ids));
      id in t.timers && t.timers[id] == s.timers[id] && id in t.rows && t.rows[id].system == s.rows[id].system
  {
    hide Inv, Enabled, Step, Silent;
    if status == Paused {
      Pausing(s, x, alerts, ids);
    } else if status == Pending {
      WritingPending(s, x, alerts, ids);
    } else if status == Up && s.systems[x].status == Down {
      ComingUp(s, x, alerts, ids);
    } else if status == Down && s.systems[x].status == Up {
      GoingDown(s, x, alerts, ids);
    } else {
      NoTransition(s, x, status, alerts, ids);
    }
  }

  /** Liveness of the protocol: over any stretch of a guarded run in which nothing interrupts it, a pending alert
      stays pending with the due time it had, so its timer can fire as soon as that time has come, and firing announces
      it. */
  lemma {:induction false} AnnouncedInTheEnd(states: seq<State>, events: seq<Event>, i: nat, k: nat, id: AlertId)
    requires Run(states, events) && i <= k < |states| && id in states[i].timers && id in states[i].rows
    requires forall j | i <= j < k :: !Interrupts(events[j], id, states[i].rows[id].system)
    ensures
      var s, sid := states[k], states[i].rows[id].system;
      && id in s.timers && s.timers[id].due == states[i].timers[id].due && id in s.rows && s.rows[id].system == sid
      && (s.timers[id].due <= s.now ==>
            && Enabled(s, TimerFires(id))
            && Step(s, TimerFires(id)).log == s.log + [Sent(false, id, sid, s.now)]
            && Step(s, TimerFires(id)).rows == s.rows[id := s.rows[id].(triggered := true)])
  {
    StillPending(states, events, i, k, id);
    RunKeepsInv(states, events, k);
    assert states[k].timers[id].due <= states[k].now ==> Enabled(states[k], TimerFires(id));
    hide Run, Inv, Enabled, Step;
    if states[k].timers[id].due <= states[k].now {
      TimerSends(states[k], id);
    }
  }

  lemma RunLength(states: seq<State>, events: seq<Event>)
    requires Run(states, events)
    ensures |states| == |events| + 1
  {}

  lemma OneStep(states: seq<State>, events: seq<Event>, k: nat)
    requires Run(states, events) && k < |events|
    ensures |states| == |events| + 1 && Inv(states[k])
    ensures Enabled(states[k], events[k]) && states[k + 1] == Step(states[k], events[k])
  {
    RunKeepsInv(states, events, k);
    hide Inv, Enabled, Step, Safe;
  }

  lemma {:induction false} StillPending(states: seq<State>, events: seq<Event>, i: nat, k: nat, id: AlertId)
    requires Run(states, events) && i <= k < |states| && id in states[i].timers && id in states[i].rows
    requires forall j | i <= j < k :: !Interrupts(events[j], id, states[i].rows[id].system)
    ensures
      && id in states[k].timers && states[k].timers[id] == states[i].timers[id]
      && id in states[k].rows && states[k].rows[id].system == states[i].rows[id].system
  {
    RunLength(states, events);
    hide Inv, Enabled, Step, Interrupts, Safe, Run;
    if i < k {
      var sid := states[i].rows[id].system;
      assert !Interrupts(events[k - 1], id, sid);
      StillPending(states, events, i, k - 1, id);
      OneMorePending(states, events, k - 1, id, sid);
    }
  }

  lemma OneMorePending(states: seq<State>, events: seq<Event>, k: nat, id: AlertId, sid: SystemId)
    requires Run(states, events) && k < |events| && |states| == |events| + 1
    requires id in states[k].timers && id in states[k].rows && states[k].rows[id].system == sid
    requires !Interrupts(events[k], id, sid)
    ensures
      && id in states[k + 1].timers && states[k + 1].timers[id] == states[k].timers[id]
      && id in states[k + 1].rows && states[k + 1].rows[id].system == sid
  {
    OneStep(states, events, k);
    hide Inv, Enabled, Step, Interrupts, Safe, Run;
    StaysPending(states[k], events[k], id);
  }
}
