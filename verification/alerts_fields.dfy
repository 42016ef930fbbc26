/** What the alerts cache holds, told in the fields of the table's rows. */
module AlertsFields {
  import opened AlertData
  import opened AlertsStore
  import opened StatusProtocol
  import opened StatusCache

  /** In every state of every run the alerts of a system are answered with their rows' own fields, the minutes cut to
      8 bits, and with no other alerts, whether they are cached or fetched. */
  lemma {:induction false} AnsweredFields(states: seq<State>, events: seq<Event>, k: nat, sid: SystemId, id: AlertId)
    requires AnyRun(states, events) && k < |states|
    ensures
      var rows := states[k].rows;
      var shelf := Loaded(states[k].store, rows, sid)[sid];
      && (id in shelf <==> id in rows && rows[id].system == sid)
      && (id in shelf ==>
            shelf[id] == CachedAlert(
              id, sid, rows[id].user, rows[id].name, rows[id].value, rows[id].triggered, rows[id].min % 256))
  {
    CacheAnswersExactly(states, events, k, sid);
    hide AnyRun, Loaded;
  }

  /** A full population caches every row of a system under its id and system with these fields, and nothing else. */
  lemma {:induction false} PopulatedFields(rows: Rows, sid: SystemId, id: AlertId)
    requires HaveSystems(rows)
    ensures
      var store := Populated(rows);
      && (sid in store <==> exists other :: other in rows && rows[other].system == sid)
      && (sid in store && id in store[sid] <==> id in rows && rows[id].system == sid)
      && (sid in store && id in store[sid] ==>
            store[sid][id] == CachedAlert(
              id, sid, rows[id].user, rows[id].name, rows[id].value, rows[id].triggered, rows[id].min % 256))
  {
    PopulatedSynced(rows);
  }
}
