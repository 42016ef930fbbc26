/** The agent's network state, updated in place. */
module NetworkAgent {
  import opened Wrappers
  import opened Words
  import opened DeltaTracking
  import opened NetworkRates

  class Agent {
    var netInterfaces: set<string>
    var trackers: map<nat, DeltaTracker>
    var netIoStats: map<nat, Baseline>

    /** The trackers' contents, kept up to date for specification. */
    ghost var net: Net

    ghost predicate Valid()
      reads this, trackers.Values
    {
      && net.nics == netInterfaces && net.baselines == netIoStats
      && net.trackers.Keys == trackers.Keys
      && (forall ct | ct in trackers :: trackers[ct].State() == net.trackers[ct])
      && (forall ct, other | ct in trackers && other in trackers && ct != other :: trackers[ct] != trackers[other])
    }

    constructor ()
      ensures Valid() && net == Fresh({})
    {
      netInterfaces, trackers, netIoStats := {}, map[], map[];
      net := Fresh({});
    }

    /** Forgets all trackers and baselines, of every interval; found is what looking at the interfaces
        selects. */
    method InitializeNetIoStats(found: set<string>)
      modifies this
      ensures Valid() && net == Fresh(found) && trackers == map[]
    {
      netInterfaces := found;
      trackers := map[];
      netIoStats := map[];
      net := Fresh(found);
    }

    method LoadAndTickNetBaseline(ct: nat, now: nat) returns (nis: Baseline, ms: nat)
      requires Valid()
      ensures ms == Elapsed(net, ct, now) && nis == BaselineFor(net, ct).(time := now)
    {
      if ct !in netIoStats {
        return Baseline(now, 0, 0), 0;
      }
      nis := netIoStats[ct];
      ms := if now >= nis.time then (now - nis.time) / MILLISECOND else 0;
      nis := nis.(time := now);
    }

    method TrackerOf(ct: nat) returns (tracker: DeltaTracker)
      requires Valid()
      modifies this
      ensures Valid() && trackers == old(trackers)[ct := tracker]
      ensures if ct in old(trackers) then tracker == old(trackers)[ct] else fresh(tracker)
      ensures net.nics == old(net.nics) && net.baselines == old(net.baselines)
      ensures net.trackers == old(net.trackers)[ct := TrackerFor(net, ct)]
      ensures TrackerFor(net, ct) == old(TrackerFor(net, ct))
    {
      if ct in trackers {
        tracker := trackers[ct];
      } else {
        tracker := new DeltaTracker();
        trackers := trackers[ct := tracker];
        net := net.(trackers := net.trackers[ct := NewTracker]);
      }
    }

    /** The rate of one counter: nothing without a previous value, and from zero after it went down. */
    method NicRateOf(tracker: DeltaTracker, key: string, value: Word, ms: nat) returns (rate: nat)
      ensures rate == PerSecond(BytesSince(tracker.previous, key, value), ms)
    {
      rate := 0;
      if ms > 0 {
        var prevVal, ok := tracker.Previous(key);
        if ok {
          var deltaBytes := if value >= prevVal then value - prevVal else value;
          rate := deltaBytes * 1000 % WORD / ms;
        } else {
          NoBytes(ms);
        }
      }
    }

    lemma NoBytes(ms: nat)
      ensures PerSecond(0, ms) == 0
    {
      if ms > 0 { ZeroDiv(ms); }
    }

    lemma ZeroDiv(ms: nat)
      requires ms > 0
      ensures 0 % WORD / ms == 0
    {}

    /** One tracked interface: its new values, and its rates against the previous interval's. */
    method TrackCounter(tracker: DeltaTracker, ms: nat, v: Counter) returns (rate: NicRate)
      modifies tracker
      ensures tracker.State()
              == WithValue(WithValue(old(tracker.State()), UpKey(v.name), v.sent), DownKey(v.name), v.recv)
      ensures rate == NicRate(PerSecond(BytesSince(old(tracker.previous), UpKey(v.name), v.sent), ms),
                              PerSecond(BytesSince(old(tracker.previous), DownKey(v.name), v.recv), ms), v.sent, v.recv)
    {
      hide PerSecond, BytesSince;
      tracker.Set(UpKey(v.name), v.sent);
      tracker.Set(DownKey(v.name), v.recv);
      var up := NicRateOf(tracker, UpKey(v.name), v.sent, ms);
      var down := NicRateOf(tracker, DownKey(v.name), v.recv, ms);
      rate := NicRate(up, down, v.sent, v.recv);
    }

    method TrackReading(tracker: DeltaTracker, ms: nat, netIO: seq<Counter>)
      returns (nics: map<string, NicRate>, sent: Word, recv: Word)
      modifies tracker
      ensures
        Tally(tracker.State(), sent, recv, nics)
        == TrackAll(netInterfaces, ms, Tally(old(tracker.State()), 0, 0, map[]), netIO)
    {
      hide PerSecond, BytesSince, WithValue;
      nics, sent, recv := map[], 0, 0;
      ghost var start := Tally(tracker.State(), 0, 0, map[]);
      for i := 0 to |netIO|
        invariant Tally(tracker.State(), sent, recv, nics) == TrackAll(netInterfaces, ms, start, netIO[..i])
      {
        assert netIO[..i + 1][..i] == netIO[..i];
        var v := netIO[i];
        if v.name !in netInterfaces {
          continue;
        }
        var rate := TrackCounter(tracker, ms, v);
        sent := (sent + v.sent) % WORD;
        recv := (recv + v.recv) % WORD;
        nics := nics[v.name := rate];
      }
      assert netIO[..|netIO|] == netIO;
    }

    method SumAndTrackPerNicDeltas(ct: nat, ms: nat, netIO: seq<Counter>)
      returns (nics: map<string, NicRate>, sent: Word, recv: Word)
      requires Valid()
      modifies this, trackers.Values
      ensures Valid() && fresh(trackers.Values - old(trackers.Values))
      ensures
        var t := TrackAll(old(net.nics), ms, Tally(Cycled(old(TrackerFor(net, ct))), 0, 0, map[]), netIO);
        && nics == t.nics && sent == t.sent && recv == t.recv
        && net == old(net).(trackers := old(net.trackers)[ct := t.tracker])
    {
      hide TrackAll, Cycled, TrackerFor, Valid;
      var tracker := TrackerOf(ct);
      nics, sent, recv := CycleAndTrack(ct, tracker, ms, netIO);
    }

    method CycleAndTrack(ct: nat, tracker: DeltaTracker, ms: nat, netIO: seq<Counter>)
      returns (nics: map<string, NicRate>, sent: Word, recv: Word)
      requires Valid() && ct in trackers && trackers[ct] == tracker
      modifies this`net, tracker
      ensures Valid()
      ensures
        var t := TrackAll(net.nics, ms, Tally(Cycled(old(TrackerFor(net, ct))), 0, 0, map[]), netIO);
        && nics == t.nics && sent == t.sent && recv == t.recv
        && net == old(net).(trackers := old(net.trackers)[ct := t.tracker])
    {
      hide TrackAll;
      tracker.Cycle();
      nics, sent, recv := TrackReading(tracker, ms, netIO);
      net := net.(trackers := net.trackers[ct := tracker.State()]);
    }

    method ComputeBytesPerSecond(ms: nat, sent: Word, recv: Word, nis: Baseline) returns (up: nat, down: nat)
      ensures up == PerSecond(Minus(sent, nis.sent), ms) && down == PerSecond(Minus(recv, nis.recv), ms)
    {
      hide Minus;
      up, down := 0, 0;
      if ms > 0 {
        up := Minus(sent, nis.sent) * 1000 % WORD / ms;
        down := Minus(recv, nis.recv) * 1000 % WORD / ms;
      }
    }

    /** Publishes the totals and makes them the next baseline; invalid totals reset everything instead. */
    method ApplyNetworkTotals(ct: nat, nis: Baseline, sent: Word, recv: Word, up: nat, down: nat, rescan: set<string>)
      returns (bandwidth: (nat, nat), reset: bool)
      requires Valid()
      modifies this
      ensures Valid() && reset == (up > LIMIT || down > LIMIT)
      ensures bandwidth == if reset then (0, 0) else (up, down)
      ensures net == if reset then Fresh(rescan)
                     else old(net).(baselines := old(net.baselines)[ct := Baseline(nis.time, sent, recv)])
      ensures trackers == if reset then map[] else old(trackers)
    {
      if up > LIMIT || down > LIMIT {
        InitializeNetIoStats(rescan);
        netIoStats := netIoStats - {ct};
        trackers := trackers - {ct};
        return (0, 0), true;
      }
      netIoStats := netIoStats[ct := nis.(sent := sent, recv := recv)];
      net := net.(baselines := net.baselines[ct := Baseline(nis.time, sent, recv)]);
      return (up, down), false;
    }

    /** One sample of one cache interval does exactly what Step says. */
    method UpdateNetworkStats(ct: nat, s: Sample) returns (report: Report)
      requires Valid()
      modifies this, trackers.Values
      ensures Valid() && fresh(trackers.Values - old(trackers.Values))
      ensures (net, report) == Step(old(net), ct, s)
    {
      hide TrackAll, PerSecond, Minus;
      if netInterfaces == {} {
        InitializeNetIoStats(s.scan);
      }
      report := Report(map[], 0, 0, false);
      if s.reading.Some? {
        var nis, ms := LoadAndTickNetBaseline(ct, s.now);
        var nics, sent, recv := SumAndTrackPerNicDeltas(ct, ms, s.reading.value);
        var up, down := ComputeBytesPerSecond(ms, sent, recv, nis);
        var bandwidth, reset := ApplyNetworkTotals(ct, nis, sent, recv, up, down, s.rescan);
        report := Report(nics, bandwidth.0, bandwidth.1, reset);
      }
    }
  }
}
