/** How a direct down-to-pending write escapes the invariant, reached from a fresh hub. */
module StatusFailure {
  import opened AlertData
  import opened AlertsStore
  import opened StatusProtocol
  import opened StatusInvariant
  import opened StatusCache
  import Hub = StatusHub

  /** Some order in which a status write may visit the alerts and rows it concerns. */
  lemma WriteOf(s: State, sid: SystemId, status: Status) returns (e: Event)
    requires sid in s.systems && Synced(s.store, s.rows)
    ensures e.StatusWrite? && e.sid == sid && e.status == status && Enabled(s, e)
  {
    SyncedLoadIsExact(s.store, s.rows, sid);
    var alerts := Hub.SomeListing(StatusShelf(s, sid));
    var ids := Hub.SomeIds(TriggeredOf(s.rows, sid));
    e := StatusWrite(sid, status, alerts, ids);
  }

  lemma GoesUp(s: State, sid: SystemId) returns (e: Event)
    requires Inv(s) && sid in s.systems && s.systems[sid].status == Pending
    ensures e.StatusWrite? && Enabled(s, e) && Safe(s, e)
    ensures
      var t := Step(s, e);
      Inv(t) && t.rows == s.rows && sid in t.systems && t.systems[sid].status == Up
  {
    e := WriteOf(s, sid, Up);
    StepKeepsInv(s, e);
    NotedEffect(s, sid, Up);
    hide Inv, Enabled, Lists, ListsIds, TablesOk, RegistryOk, Synced, Noted;
  }

  lemma GoesDown(s: State, sid: SystemId, id: AlertId) returns (e: Event)
    requires Inv(s) && sid in s.systems && s.systems[sid].status == Up
    requires id in s.rows && s.rows[id].system == sid && s.rows[id].name == STATUS
    ensures e.StatusWrite? && Enabled(s, e) && Safe(s, e)
    ensures
      var t := Step(s, e);
      Inv(t) && t.rows == s.rows && id in t.timers && sid in t.systems
  {
    e := WriteOf(s, sid, Down);
    StepKeepsInv(s, e);
    GoingDownSchedulesAll(s, sid, e.alerts, e.ids);
    NotedEffect(s, sid, Down);
    DownEffect(LoadShelf(Noted(s, sid, Down), sid), e.alerts);
    hide Inv, Enabled, Lists, ListsIds, TablesOk, RegistryOk, Synced, Noted, HandleSystemDown;
  }

  lemma GoesPending(s: State, sid: SystemId, id: AlertId) returns (e: Event)
    requires Inv(s) && sid in s.systems && id in s.rows && s.rows[id].system == sid && id in s.timers
    ensures e.StatusWrite? && e.sid == sid && e.status == Pending && Enabled(s, e)
    ensures
      var t := Step(s, e);
      && !Inv(t) && id in t.timers && id in t.rows && t.rows[id].system == sid && sid in t.systems
      && t.systems[sid].status == Pending
  {
    e := WriteOf(s, sid, Pending);
    PendingEffect(s, sid, e.ids);
    hide Enabled, Lists, ListsIds, TablesOk, RegistryOk, Synced, Noted, OnPending;
  }

  /** A system with one Status alert is created, comes up, goes down, and is written back to pending: every event
      before the last is guarded, and after it the alert's timer runs on although the system is not down. */
  lemma DirectPendingWriteLeavesTimer() returns (states: seq<State>, events: seq<Event>)
    ensures AnyRun(states, events) && |events| == 5
    ensures forall i | 0 <= i < 4 :: Safe(states[i], events[i]) && Inv(states[i])
    ensures Inv(states[4])
    ensures events[4].StatusWrite? && events[4].status == Pending && !Inv(states[5])
    ensures
      var t := states[5];
      "a" in t.timers && "a" in t.rows && t.rows["a"].system == "sys" && "sys" in t.systems
      && t.systems["sys"].status == Pending
  {
    hide Inv, Enabled, Step, Safe, AnyRun, Initial;
    InitialInv();
    var e0, e1 := CreatedWithAlert();
    var s0 := Initial(0);
    var s1 := Step(s0, e0);
    var s2 := Step(s1, e1);
    var e2 := GoesUp(s2, "sys");
    var s3 := Step(s2, e2);
    var e3 := GoesDown(s3, "sys", "a");
    var s4 := Step(s3, e3);
    var e4 := GoesPending(s4, "sys", "a");
    states, events := [s0, s1, s2, s3, s4, Step(s4, e4)], [e0, e1, e2, e3, e4];
    FiveSteps(states, events);
  }

  lemma CreatedWithAlert() returns (e0: Event, e1: Event)
    ensures
      var s0 := Initial(0);
      && Enabled(s0, e0) && Safe(s0, e0) && Inv(Step(s0, e0))
      && (var s1 := Step(s0, e0);
          && Enabled(s1, e1) && Safe(s1, e1) && Inv(Step(s1, e1))
          && (var s2 := Step(s1, e1);
              && "sys" in s2.systems && s2.systems["sys"].status == Pending
              && "a" in s2.rows && s2.rows["a"].system == "sys" && s2.rows["a"].name == STATUS))
  {
    var row := AlertRecord("sys", "u", STATUS, 0.0, false, 5);
    e0, e1 := CreateSystem("sys", "h"), CreateAlert("a", row);
    var s0 := Initial(0);
    InitialInv();
    var s1 := Step(s0, e0);
    assert "sys" in s1.systems && s1.systems["sys"].status == Pending && s1.rows == map[] && s1.timers == map[];
    assert Step(s1, e1).systems == s1.systems && Step(s1, e1).rows == map["a" := row];
    hide Inv, Step;
    StepKeepsInv(s0, e0);
    StepKeepsInv(s1, e1);
  }

  lemma FiveSteps(states: seq<State>, events: seq<Event>)
    requires |states| == 6 && |events| == 5 && states[0] == Initial(0)
    requires Enabled(states[0], events[0]) && states[1] == Step(states[0], events[0])
    requires Enabled(states[1], events[1]) && states[2] == Step(states[1], events[1])
    requires Enabled(states[2], events[2]) && states[3] == Step(states[2], events[2])
    requires Enabled(states[3], events[3]) && states[4] == Step(states[3], events[3])
    requires Enabled(states[4], events[4]) && states[5] == Step(states[4], events[4])
    ensures AnyRun(states, events)
  {
    hide Enabled, Step;
  }

  lemma InitialInv()
    ensures Inv(Initial(0))
  {}
}
