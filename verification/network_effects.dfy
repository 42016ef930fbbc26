/** One network sample of the agent, told in counters and numbers. Times are in nanoseconds. */
module NetworkEffects {
  import opened Wrappers
  import opened Words
  import opened DeltaTracking
  import opened NetworkRates
  import Laws = NetworkLaws

  const W := 0x1_0000_0000_0000_0000

  /** Milliseconds since the previous sample of the interval; none without one. */
  function Milliseconds(net: Net, ct: nat, now: nat): nat {
    if ct in net.baselines && now >= net.baselines[ct].time then (now - net.baselines[ct].time) / 1_000_000 else 0
  }

  /** Bytes per second of one interface in one direction, from the counter the interval saw last. */
  function NicSpeed(net: Net, ct: nat, now: nat, key: string, value: Word): nat {
    var ms := Milliseconds(net, ct, now);
    if ms == 0 || ct !in net.trackers || key !in net.trackers[ct].current then 0
    else
      var last := net.trackers[ct].current[key];
      (if value >= last then value - last else value) * 1000 % W / ms
  }

  /** The interface is tracked, and this is its last entry in the reading. */
  predicate LastEntry(net: Net, reading: seq<Counter>, i: nat) {
    && i < |reading| && reading[i].name in net.nics
    && forall j | i < j < |reading| :: reading[j].name != reading[i].name
  }

  lemma {:induction false} LastEntryIs(reading: seq<Counter>, i: nat)
    requires i < |reading| && forall j | i < j < |reading| :: reading[j].name != reading[i].name
    ensures Laws.LastOf(reading, reading[i].name) == Some(reading[i])
  {
    if i < |reading| - 1 {
      LastEntryIs(reading[..|reading| - 1], i);
    }
  }

  lemma {:induction false} NoEntry(reading: seq<Counter>, name: string)
    ensures Laws.LastOf(reading, name).Some? <==> exists i :: 0 <= i < |reading| && reading[i].name == name
  {
    if reading != [] {
      var init := reading[..|reading| - 1];
      NoEntry(init, name);
      if i :| 0 <= i < |init| && init[i].name == name {
        assert reading[i].name == name;
      }
      if i :| 0 <= i < |reading| && reading[i].name == name {
        assert i < |init| ==> init[i].name == name;
      }
    }
  }

  /** A tracked interface is reported with its own two counters and the speeds since the last sample of the same
      interval; a counter that went down counts from zero. Interfaces that are not tracked or not in the reading
      are not reported. */
  lemma {:induction false} NicsReported(net: Net, ct: nat, s: Sample)
    requires (net.nics != {} || net == Net(s.scan, map[], map[])) && s.reading.Some?
    ensures
      var report := Step(net, ct, s).1;
      && (forall name :: name in report.nics <==>
            name in net.nics && exists i :: 0 <= i < |s.reading.value| && s.reading.value[i].name == name)
      && (forall i: nat | LastEntry(net, s.reading.value, i) ::
            var c := s.reading.value[i];
            c.name in report.nics && report.nics[c.name] == NicRate(
              NicSpeed(net, ct, s.now, c.name + "up", c.sent), NicSpeed(net, ct, s.now, c.name + "down", c.recv),
              c.sent, c.recv))
  {
    var report, reading := Step(net, ct, s).1, s.reading.value;
    ReportIs(net, ct, s);
    forall name
      ensures name in report.nics <==>
        name in net.nics && exists i :: 0 <= i < |s.reading.value| && s.reading.value[i].name == name
    {
      NoEntry(reading, name);
      OneNic(net, ct, s, name, true);
    }
    forall i: nat | LastEntry(net, reading, i)
      ensures
        var c := reading[i];
        c.name in report.nics && report.nics[c.name] == NicRate(
          NicSpeed(net, ct, s.now, c.name + "up", c.sent), NicSpeed(net, ct, s.now, c.name + "down", c.recv),
          c.sent, c.recv)
    {
      LastEntryIs(reading, i);
      OneNic(net, ct, s, reading[i].name, true);
      OneNic(net, ct, s, reading[i].name, false);
      hide Tallied, Step, NicSpeed;
    }
  }

  lemma ReportIs(net: Net, ct: nat, s: Sample)
    requires (net.nics != {} || net == Net(s.scan, map[], map[])) && s.reading.Some?
    ensures Step(net, ct, s).1.nics == Tallied(net, ct, s.now, s.reading.value).nics
  {
    hide Tallied;
  }

  lemma SpeedIs(net: Net, ct: nat, now: nat, key: string, value: Word)
    ensures
      PerSecond(BytesSince(Cycled(TrackerFor(net, ct)).previous, key, value), Elapsed(net, ct, now))
      == NicSpeed(net, ct, now, key, value)
  {
    if Elapsed(net, ct, now) > 0 {
      NothingPerSecond(Elapsed(net, ct, now));
    }
  }

  lemma NothingPerSecond(ms: nat)
    requires ms > 0
    ensures 0 % WORD / ms == 0
  {}

  lemma {:induction false} CountersKept(nics: set<string>, ms: nat, t: Tally, reading: seq<Counter>, name: string)
    requires t.nics == map[]
    ensures
      var r := TrackAll(nics, ms, t, reading);
      name in r.nics ==>
        name in nics && Laws.LastOf(reading, name).Some? && r.nics[name].sent == Laws.LastOf(reading, name).value.sent
        && r.nics[name].recv == Laws.LastOf(reading, name).value.recv
  {
    if reading != [] {
      CountersKept(nics, ms, t, reading[..|reading| - 1], name);
      hide PerSecond, BytesSince, WithValue, UpKey, DownKey;
    }
  }

  lemma {:induction false} OneNic(net: Net, ct: nat, s: Sample, name: string, up: bool)
    requires (net.nics != {} || net == Net(s.scan, map[], map[])) && s.reading.Some?
    ensures
      var (t, c) := (Tallied(net, ct, s.now, s.reading.value), Laws.LastOf(s.reading.value, name));
      && (name in t.nics <==> name in net.nics && c.Some?)
      && (name in t.nics ==>
            && t.nics[name].sent == c.value.sent && t.nics[name].recv == c.value.recv
            && (up ==> t.nics[name].up == NicSpeed(net, ct, s.now, name + "up", c.value.sent))
            && (!up ==> t.nics[name].down == NicSpeed(net, ct, s.now, name + "down", c.value.recv)))
  {
    var start := Tally(Cycled(TrackerFor(net, ct)), 0, 0, map[]);
    Laws.TrackAllAt(net.nics, Elapsed(net, ct, s.now), start, s.reading.value, name, up);
    CountersKept(net.nics, Elapsed(net, ct, s.now), start, s.reading.value, name);
    var c := Laws.LastOf(s.reading.value, name);
    if c.Some? {
      SpeedIs(net, ct, s.now, Laws.Key(name, up), Laws.Value(c.value, up));
    }
    hide TrackAll, PerSecond, BytesSince, NicSpeed, TrackerFor, Cycled, Elapsed, Laws.LastOf;
  }

  // ---------------------------------------------------------------- totals

  /** The counters of all tracked interfaces, added up. */
  function SentTotal(nics: set<string>, reading: seq<Counter>): nat {
    if reading == [] then 0
    else
      var c := reading[|reading| - 1];
      SentTotal(nics, reading[..|reading| - 1]) + if c.name in nics then c.sent else 0
  }

  function RecvTotal(nics: set<string>, reading: seq<Counter>): nat {
    if reading == [] then 0
    else
      var c := reading[|reading| - 1];
      RecvTotal(nics, reading[..|reading| - 1]) + if c.name in nics then c.recv else 0
  }

  lemma {:induction false} TotalIs(nics: set<string>, reading: seq<Counter>)
    ensures Laws.Total(nics, reading, true) == SentTotal(nics, reading)
    ensures Laws.Total(nics, reading, false) == RecvTotal(nics, reading)
  {
    if reading != [] { TotalIs(nics, reading[..|reading| - 1]); }
  }

  /** Bytes per second of a total, in 64 bits; nothing without an earlier sample of the interval. */
  function TotalSpeed(net: Net, ct: nat, now: nat, last: Word, total: nat): nat {
    var ms := Milliseconds(net, ct, now);
    if ms == 0 then 0 else (total - last) % W * 1000 % W / ms
  }

  /** The totals published and the baseline left behind: beyond 10 GB/s in either direction everything is forgotten
      and zeros are published; otherwise the speeds are, the time and the totals become the interval's baseline,
      and no other interval's tracker or baseline changes. */
  lemma {:induction false} TotalsPublished(net: Net, ct: nat, s: Sample)
    requires (net.nics != {} || net == Net(s.scan, map[], map[])) && s.reading.Some?
    ensures
      var (net', report) := Step(net, ct, s);
      var (sent, recv) := (SentTotal(net.nics, s.reading.value), RecvTotal(net.nics, s.reading.value));
      var up := TotalSpeed(net, ct, s.now, if ct in net.baselines then net.baselines[ct].sent else 0, sent);
      var down := TotalSpeed(net, ct, s.now, if ct in net.baselines then net.baselines[ct].recv else 0, recv);
      if up > 10_000_000_000 || down > 10_000_000_000 then
        report.reset && report.sent == 0 && report.recv == 0 && net' == Net(s.rescan, map[], map[])
      else
        && !report.reset && report.sent == up && report.recv == down && net'.nics == net.nics
        && net'.baselines == net.baselines[ct := Baseline(s.now, sent % W, recv % W)]
        && ct in net'.trackers && net'.trackers == net.trackers[ct := net'.trackers[ct]]
  {
    var start := Tally(Cycled(TrackerFor(net, ct)), 0, 0, map[]);
    var t, b := Tallied(net, ct, s.now, s.reading.value), BaselineFor(net, ct);
    Laws.TotalsAdd(net.nics, Elapsed(net, ct, s.now), start, s.reading.value);
    TotalIs(net.nics, s.reading.value);
    SameDifference(SentTotal(net.nics, s.reading.value), b.sent);
    SameDifference(RecvTotal(net.nics, s.reading.value), b.recv);
    assert SentRate(net, ct, s.now, t) == TotalSpeed(net, ct, s.now, b.sent, SentTotal(net.nics, s.reading.value));
    assert RecvRate(net, ct, s.now, t) == TotalSpeed(net, ct, s.now, b.recv, RecvTotal(net.nics, s.reading.value));
    hide Tallied, TrackAll, SentTotal, RecvTotal, Laws.Total, PerSecond, Minus, SentRate, RecvRate, TotalSpeed;
  }

  lemma SameDifference(total: nat, last: Word)
    ensures Minus(total % WORD, last) == (total - last) % WORD
  {
    var q := total / WORD;
    assert total == q * WORD + total % WORD;
    ModShift(total % WORD - last, q);
  }

  /** What the interval's tracker remembers: the counters of the reading now, and those of its last sample before. */
  lemma {:induction false} CountersRemembered(net: Net, ct: nat, s: Sample)
    requires (net.nics != {} || net == Net(s.scan, map[], map[])) && s.reading.Some? && !Step(net, ct, s).1.reset
    ensures
      var tracker := Step(net, ct, s).0.trackers[ct];
      && tracker.previous == (if ct in net.trackers then net.trackers[ct].current else map[])
      && (forall i: nat | LastEntry(net, s.reading.value, i) ::
            var c := s.reading.value[i];
            && c.name + "up" in tracker.current && tracker.current[c.name + "up"] == c.sent
            && c.name + "down" in tracker.current && tracker.current[c.name + "down"] == c.recv)
      && (forall name | !exists i: nat :: LastEntry(net, s.reading.value, i) && s.reading.value[i].name == name ::
            name + "up" !in tracker.current && name + "down" !in tracker.current)
  {
    var tracker, reading := Step(net, ct, s).0.trackers[ct], s.reading.value;
    var start := Tally(Cycled(TrackerFor(net, ct)), 0, 0, map[]);
    StoredTracker(net, ct, s);
    Laws.TrackAllAt(net.nics, Elapsed(net, ct, s.now), start, reading, "", true);
    assert tracker.previous == (if ct in net.trackers then net.trackers[ct].current else map[]);
    forall name ensures Kept(net, ct, s, tracker, name) {
      Laws.TrackAllAt(net.nics, Elapsed(net, ct, s.now), start, reading, name, true);
      Laws.TrackAllAt(net.nics, Elapsed(net, ct, s.now), start, reading, name, false);
    }
    hide Step, Tallied, Laws.LastOf;
    forall i: nat | LastEntry(net, reading, i)
      ensures
        var c := reading[i];
        && c.name + "up" in tracker.current && tracker.current[c.name + "up"] == c.sent
        && c.name + "down" in tracker.current && tracker.current[c.name + "down"] == c.recv
    {
      LastEntryIs(reading, i);
      assert Kept(net, ct, s, tracker, reading[i].name);
    }
    forall name | !exists i: nat :: LastEntry(net, reading, i) && reading[i].name == name
      ensures name + "up" !in tracker.current && name + "down" !in tracker.current
    {
      assert Kept(net, ct, s, tracker, name);
      EntryExists(net, reading, name);
    }
  }

  lemma EntryExists(net: Net, reading: seq<Counter>, name: string)
    ensures name in net.nics && Laws.LastOf(reading, name).Some? ==>
              exists i: nat :: LastEntry(net, reading, i) && reading[i].name == name
  {
    if name in net.nics && Laws.LastOf(reading, name).Some? {
      var i := LastIndex(reading, name);
      assert LastEntry(net, reading, i);
    }
  }

  ghost predicate Kept(net: Net, ct: nat, s: Sample, tracker: Tracker, name: string)
    requires s.reading.Some?
  {
    var c := Laws.LastOf(s.reading.value, name);
    && (name + "up" in tracker.current <==> name in net.nics && c.Some?)
    && (name + "down" in tracker.current <==> name in net.nics && c.Some?)
    && (name in net.nics && c.Some? ==>
          tracker.current[name + "up"] == c.value.sent && tracker.current[name + "down"] == c.value.recv)
  }

  lemma {:induction false} LastIndex(reading: seq<Counter>, name: string) returns (i: nat)
    requires Laws.LastOf(reading, name).Some?
    ensures i < |reading| && reading[i].name == name && forall j | i < j < |reading| :: reading[j].name != name
  {
    i := |reading| - 1;
    if reading[i].name != name {
      i := LastIndex(reading[..|reading| - 1], name);
    }
  }

  lemma StoredTracker(net: Net, ct: nat, s: Sample)
    requires (net.nics != {} || net == Net(s.scan, map[], map[])) && s.reading.Some? && !Step(net, ct, s).1.reset
    ensures ct in Step(net, ct, s).0.trackers
    ensures Step(net, ct, s).0.trackers[ct] == Tallied(net, ct, s.now, s.reading.value).tracker
  {
    hide Tallied;
  }

  /** Without interfaces a sample first looks for some and starts over with those it finds; without a reading it
      publishes nothing. */
  lemma BeforeAnything(net: Net, ct: nat, s: Sample)
    ensures net.nics == {} ==> Step(net, ct, s) == Step(Net(s.scan, map[], map[]), ct, s)
    ensures s.reading.None? ==>
              Step(net, ct, s) ==
              (if net.nics == {} then Net(s.scan, map[], map[]) else net, Report(map[], 0, 0, false))
  {
    hide Tallied;
  }
}
