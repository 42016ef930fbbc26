/** Turning interface counters into rates, separately per cache interval. */
module NetworkRates {
  import opened Wrappers
  import opened Words
  import opened DeltaTracking

  const LIMIT: nat := 10_000_000_000    // bytes per second beyond which a total counts as invalid
  const MILLISECOND: nat := 1_000_000   // in nanoseconds

  /** One interface as the operating system reports it. */
  datatype Counter = Counter(name: string, sent: Word, recv: Word)

  datatype Baseline = Baseline(time: nat, sent: Word, recv: Word)

  /** Tracked interfaces; and per cache interval the trackers and the totals at its last sample. */
  datatype Net = Net(nics: set<string>, trackers: map<nat, Tracker>, baselines: map<nat, Baseline>)

  datatype NicRate = NicRate(up: nat, down: nat, sent: Word, recv: Word)

  datatype Report = Report(nics: map<string, NicRate>, sent: nat, recv: nat, reset: bool)

  /** One sample: the time, the counters (None if reading them fails), and what looking for valid
      interfaces finds before the sample and after it, should the code look. */
  datatype Sample = Sample(now: nat, reading: Option<seq<Counter>>, scan: set<string>, rescan: set<string>)

  function UpKey(name: string): string { name + "up" }
  function DownKey(name: string): string { name + "down" }

  function Fresh(nics: set<string>): Net { Net(nics, map[], map[]) }

  /** No interfaces known: look for some, dropping trackers and baselines. */
  function Ready(net: Net, s: Sample): Net {
    if net.nics == {} then Fresh(s.scan) else net
  }

  function Elapsed(net: Net, ct: nat, now: nat): nat {
    if ct in net.baselines && now >= net.baselines[ct].time then (now - net.baselines[ct].time) / MILLISECOND else 0
  }

  function TrackerFor(net: Net, ct: nat): Tracker {
    if ct in net.trackers then net.trackers[ct] else NewTracker
  }

  /** Bytes since the previous sample; a counter that went down was reset and counts from zero. */
  function BytesSince(previous: map<string, Word>, key: string, value: Word): Word {
    if key !in previous then 0
    else if value >= previous[key] then value - previous[key]
    else value
  }

  /** `bytes * 1000 / ms` on 64-bit words. */
  function PerSecond(bytes: Word, ms: nat): nat {
    if ms > 0 then bytes * 1000 % WORD / ms else 0
  }

  datatype Tally = Tally(tracker: Tracker, sent: Word, recv: Word, nics: map<string, NicRate>)

  function Track(nics: set<string>, ms: nat, t: Tally, v: Counter): Tally {
    if v.name !in nics then t
    else
      Tally(WithValue(WithValue(t.tracker, UpKey(v.name), v.sent), DownKey(v.name), v.recv),
            (t.sent + v.sent) % WORD, (t.recv + v.recv) % WORD,
            t.nics[v.name := NicRate(PerSecond(BytesSince(t.tracker.previous, UpKey(v.name), v.sent), ms),
                                     PerSecond(BytesSince(t.tracker.previous, DownKey(v.name), v.recv), ms),
                                     v.sent, v.recv)])
  }

  function TrackAll(nics: set<string>, ms: nat, t: Tally, reading: seq<Counter>): Tally {
    if reading == [] then t
    else Track(nics, ms, TrackAll(nics, ms, t, reading[..|reading| - 1]), reading[|reading| - 1])
  }

  function Tallied(net: Net, ct: nat, now: nat, reading: seq<Counter>): Tally {
    TrackAll(net.nics, Elapsed(net, ct, now), Tally(Cycled(TrackerFor(net, ct)), 0, 0, map[]), reading)
  }

  function BaselineFor(net: Net, ct: nat): Baseline {
    if ct in net.baselines then net.baselines[ct] else Baseline(0, 0, 0)
  }

  function SentRate(net: Net, ct: nat, now: nat, t: Tally): nat {
    PerSecond(Minus(t.sent, BaselineFor(net, ct).sent), Elapsed(net, ct, now))
  }

  function RecvRate(net: Net, ct: nat, now: nat, t: Tally): nat {
    PerSecond(Minus(t.recv, BaselineFor(net, ct).recv), Elapsed(net, ct, now))
  }

  /** A sample's totals are judged; invalid ones reset everything, valid ones become the next baseline. */
  function Applied(net: Net, ct: nat, s: Sample, t: Tally): (Net, Report) {
    var (up, down) := (SentRate(net, ct, s.now, t), RecvRate(net, ct, s.now, t));
    if up > LIMIT || down > LIMIT then (Fresh(s.rescan), Report(t.nics, 0, 0, true))
    else (Net(net.nics, net.trackers[ct := t.tracker], net.baselines[ct := Baseline(s.now, t.sent, t.recv)]),
          Report(t.nics, up, down, false))
  }

  function Taken(net: Net, ct: nat, s: Sample): (Net, Report) {
    if s.reading.None? then (net, Report(map[], 0, 0, false))
    else Applied(net, ct, s, Tallied(net, ct, s.now, s.reading.value))
  }

  function Step(net: Net, ct: nat, s: Sample): (Net, Report) {
    Taken(Ready(net, s), ct, s)
  }
}
