/** What the reported rates promise: no traffic is invented, drops are noticed, and cache intervals do
    not disturb one another. */
module NetworkLaws {
  import opened Wrappers
  import opened Words
  import opened DeltaTracking
  import opened NetworkRates

  // ---------------------------------------------------------------- keys

  /** No interface's up key is any interface's down key, and equal keys mean equal interfaces. */
  lemma KeysNeverCollide(a: string, b: string)
    ensures UpKey(a) != DownKey(b)
    ensures UpKey(a) == UpKey(b) ==> a == b
    ensures DownKey(a) == DownKey(b) ==> a == b
  {
    var (u, v, d, e) := (UpKey(a), UpKey(b), DownKey(a), DownKey(b));
    assert u[|u| - 1] == 'p' && e[|e| - 1] == 'n';
    assert u[..|u| - 2] == a && v[..|v| - 2] == b;
    assert d[..|d| - 4] == a && e[..|e| - 4] == b;
  }

  function Key(name: string, up: bool): string { if up then UpKey(name) else DownKey(name) }

  function Value(c: Counter, up: bool): Word { if up then c.sent else c.recv }

  function Rate(r: NicRate, up: bool): nat { if up then r.up else r.down }

  /** The reading of an interface; the last one, should it be listed twice. */
  function LastOf(reading: seq<Counter>, name: string): Option<Counter> {
    if reading == [] then None
    else if reading[|reading| - 1].name == name then Some(reading[|reading| - 1])
    else LastOf(reading[..|reading| - 1], name)
  }

  /** One pass over the reading: each tracked interface gets its own values and rates, whatever other
      interfaces there are. */
  lemma {:induction false} TrackAllAt(
    nics: set<string>, ms: nat, t: Tally, reading: seq<Counter>, name: string, up: bool)
    requires t.tracker.current == map[] && t.nics == map[]
    ensures
      var r, c, k := TrackAll(nics, ms, t, reading), LastOf(reading, name), Key(name, up);
      && r.tracker.previous == t.tracker.previous
      && (k in r.tracker.current <==> name in nics && c.Some?)
      && (name in r.nics <==> name in nics && c.Some?)
      && (k in r.tracker.current ==> r.tracker.current[k] == Value(c.value, up))
      && (name in r.nics ==>
            Rate(r.nics[name], up) == PerSecond(BytesSince(t.tracker.previous, k, Value(c.value, up)), ms))
  {
    if reading != [] {
      var init, v := reading[..|reading| - 1], reading[|reading| - 1];
      TrackAllAt(nics, ms, t, init, name, up);
      KeysNeverCollide(name, v.name);
      KeysNeverCollide(v.name, name);
      hide PerSecond, BytesSince, UpKey, DownKey;
    }
  }

  // ---------------------------------------------------------------- totals

  function Total(nics: set<string>, reading: seq<Counter>, up: bool): nat {
    if reading == [] then 0
    else
      var v := reading[|reading| - 1];
      Total(nics, reading[..|reading| - 1], up) + if v.name in nics then Value(v, up) else 0
  }

  lemma {:induction false} TotalsAdd(nics: set<string>, ms: nat, t: Tally, reading: seq<Counter>)
    requires t.sent == t.recv == 0
    ensures TrackAll(nics, ms, t, reading).sent == Total(nics, reading, true) % WORD
    ensures TrackAll(nics, ms, t, reading).recv == Total(nics, reading, false) % WORD
  {
    if reading == [] {
      SmallMod(0);
    } else {
      var init, v := reading[..|reading| - 1], reading[|reading| - 1];
      TotalsAdd(nics, ms, t, init);
      hide PerSecond, BytesSince, UpKey, DownKey;
      WrapTwice(Total(nics, init, true), v.sent);
      WrapTwice(Total(nics, init, false), v.recv);
    }
  }

  // ---------------------------------------------------------------- the rate of a total

  function TotalRate(before: Word, now: Word, ms: nat): nat { PerSecond(Minus(now, before), ms) }

  /** A total that went down by d is noticed if and only if -1000 d, as a 64-bit word, still amounts to
      more than the limit over the elapsed time. */
  lemma DropNoticedIff(before: Word, now: Word, ms: nat)
    requires now < before && ms > 0
    ensures TotalRate(before, now, ms) > LIMIT <==> (-1000 * (before - now)) % WORD >= (LIMIT + 1) * ms
  {
    var d := before - now;
    ModNegative(d);
    assert Minus(now, before) == WORD - d;
    var w := (-1000 * d) % WORD;
    assert (WORD - d) * 1000 == -1000 * d + 1000 * WORD;
    ModShift(-1000 * d, 1000);
    QuotientAbove(w, ms, LIMIT);
  }

  lemma QuotientAbove(w: nat, ms: nat, limit: nat)
    requires ms > 0
    ensures w / ms > limit <==> w >= (limit + 1) * ms
  {
    var q := w / ms;
    assert q * ms <= w < q * ms + ms;
    if q > limit {
      MulMonotone(limit + 1, q, ms);
    } else {
      MulMonotone(q + 1, limit + 1, ms);
      assert (q + 1) * ms == q * ms + ms;
    }
  }

  lemma MulMonotone(x: nat, y: nat, k: nat)
    requires x <= y
    ensures x * k <= y * k
  {}

  predicate Drop(before: Word, now: Word, ms: nat) {
    now < before && 1000 * (before - now) + (LIMIT + 1) * ms <= WORD
  }

  /** So a drop of d >= 1 is always noticed while 1000 d + (LIMIT + 1) ms fits a word. */
  lemma DropAlwaysNoticed(before: Word, now: Word, ms: nat)
    requires Drop(before, now, ms) && ms > 0
    ensures TotalRate(before, now, ms) > LIMIT
  {
    var m := 1000 * (before - now);
    ModNegative(m);
    assert (-1000 * (before - now)) == -m;
    MulMonotone(0, LIMIT + 1, ms);
    hide PerSecond, Minus;
    DropNoticedIff(before, now, ms);
  }

  /** Without a drop or an overflow the rate is exact. */
  lemma RiseIsExact(before: Word, now: Word, ms: nat)
    requires before <= now && ms > 0 && 1000 * (now - before) < WORD
    ensures TotalRate(before, now, ms) == 1000 * (now - before) / ms
  {
    SmallMod(now - before);
    SmallMod(1000 * (now - before));
  }

  // ---------------------------------------------------------------- one sample

  /** Exactly when a sample resets, and what it publishes otherwise. */
  lemma ResetIff(net: Net, ct: nat, s: Sample)
    requires net.nics != {} && s.reading.Some?
    ensures
      var (t, b, ms) := (Tallied(net, ct, s.now, s.reading.value), BaselineFor(net, ct), Elapsed(net, ct, s.now));
      var (net', report) := Step(net, ct, s);
      var (up, down) := (TotalRate(b.sent, t.sent, ms), TotalRate(b.recv, t.recv, ms));
      && (report.reset <==> up > LIMIT || down > LIMIT)
      && (report.sent, report.recv) == (if report.reset then (0, 0) else (up, down))
      && (!report.reset ==> ct in net'.baselines && net'.baselines[ct] == Baseline(s.now, t.sent, t.recv))
  {
    hide Tallied, PerSecond;
  }

  /** Totals that do not drop publish the exact rate, rounded down, unless that rate is itself beyond the
      limit: then zeros, and a reset. */
  lemma {:induction false} RisePublishesExactly(net: Net, ct: nat, s: Sample)
    requires net.nics != {} && s.reading.Some? && ct in net.baselines && Elapsed(net, ct, s.now) > 0
    requires Rises(net.baselines[ct].sent, Total(net.nics, s.reading.value, true))
    requires Rises(net.baselines[ct].recv, Total(net.nics, s.reading.value, false))
    ensures
      var (b, ms, report) := (net.baselines[ct], Elapsed(net, ct, s.now), Step(net, ct, s).1);
      var up := 1000 * (Total(net.nics, s.reading.value, true) - b.sent) / ms;
      var down := 1000 * (Total(net.nics, s.reading.value, false) - b.recv) / ms;
      && (report.reset <==> up > LIMIT || down > LIMIT)
      && (report.sent, report.recv) == if report.reset then (0, 0) else (up, down)
  {
    var (up, down) := (Total(net.nics, s.reading.value, true), Total(net.nics, s.reading.value, false));
    TotalsAdd(net.nics, Elapsed(net, ct, s.now), Tally(Cycled(TrackerFor(net, ct)), 0, 0, map[]), s.reading.value);
    SmallMod(up);
    SmallMod(down);
    RiseIsExact(net.baselines[ct].sent, up, Elapsed(net, ct, s.now));
    RiseIsExact(net.baselines[ct].recv, down, Elapsed(net, ct, s.now));
    hide TrackAll, Total, PerSecond, Minus, Elapsed, Taken, TotalRate;
    ResetIff(net, ct, s);
  }

  predicate Rises(before: Word, now: nat) { before <= now < WORD && 1000 * (now - before) < WORD }

  predicate Blank(r: Report) {
    r.sent == 0 && r.recv == 0 && forall name | name in r.nics :: r.nics[name].up == 0 && r.nics[name].down == 0
  }

  /** The first sample of an interval publishes only zeros and records the totals as its baseline. */
  lemma {:induction false} FirstSampleIsBlank(net: Net, ct: nat, s: Sample)
    requires ct !in net.baselines && s.reading.Some?
    ensures
      var (net', report) := Step(net, ct, s);
      var nics := Ready(net, s).nics;
      && Blank(report) && !report.reset
      && ct in net'.baselines && net'.baselines[ct] ==
         Baseline(s.now, Total(nics, s.reading.value, true) % WORD, Total(nics, s.reading.value, false) % WORD)
  {
    var ready := Ready(net, s);
    var t := Tallied(ready, ct, s.now, s.reading.value);
    TotalsAdd(ready.nics, 0, Tally(Cycled(TrackerFor(ready, ct)), 0, 0, map[]), s.reading.value);
    NoTimeNoRates(ready.nics, Tally(Cycled(TrackerFor(ready, ct)), 0, 0, map[]), s.reading.value);
    hide TrackAll, Total, TrackerFor, Cycled;
  }

  lemma {:induction false} NoTimeNoRates(nics: set<string>, t: Tally, reading: seq<Counter>)
    requires t.nics == map[]
    ensures forall name | name in TrackAll(nics, 0, t, reading).nics ::
              TrackAll(nics, 0, t, reading).nics[name].up == 0 && TrackAll(nics, 0, t, reading).nics[name].down == 0
  {
    if reading != [] {
      NoTimeNoRates(nics, t, reading[..|reading| - 1]);
      hide BytesSince, UpKey, DownKey, WithValue;
    }
  }

  /** A noticed drop publishes zero totals, and so does the next sample of any interval at all, which
      starts over with the totals it finds. */
  lemma {:induction false} DropIsContained(net: Net, ct: nat, s: Sample, next: nat, s': Sample)
    requires net.nics != {} && s.reading.Some? && s'.reading.Some?
    requires ct in net.baselines && Elapsed(net, ct, s.now) > 0
    requires
      || Drop(net.baselines[ct].sent, Total(net.nics, s.reading.value, true) % WORD, Elapsed(net, ct, s.now))
      || Drop(net.baselines[ct].recv, Total(net.nics, s.reading.value, false) % WORD, Elapsed(net, ct, s.now))
    ensures
      var (net', report) := Step(net, ct, s);
      var (net'', report') := Step(net', next, s');
      && report.reset && report.sent == report.recv == 0
      && Blank(report') && !report'.reset && next in net''.baselines
  {
    TotalsAdd(net.nics, Elapsed(net, ct, s.now), Tally(Cycled(TrackerFor(net, ct)), 0, 0, map[]), s.reading.value);
    var (up, down) := (Total(net.nics, s.reading.value, true) % WORD, Total(net.nics, s.reading.value, false) % WORD);
    if Drop(net.baselines[ct].sent, up, Elapsed(net, ct, s.now)) {
      DropAlwaysNoticed(net.baselines[ct].sent, up, Elapsed(net, ct, s.now));
    } else {
      DropAlwaysNoticed(net.baselines[ct].recv, down, Elapsed(net, ct, s.now));
    }
    hide TrackAll, Total, PerSecond, Minus, Elapsed, Blank, Taken;
    ResetIff(net, ct, s);
    ResetForgetsAll(net, ct, s);
    FirstSampleIsBlank(Step(net, ct, s).0, next, s');
  }

  lemma ResetForgetsAll(net: Net, ct: nat, s: Sample)
    requires Step(net, ct, s).1.reset
    ensures Step(net, ct, s).0 == Fresh(s.rescan)
  {
    hide Tallied, PerSecond, Ready;
  }

  // ---------------------------------------------------------------- runs

  datatype Round = Round(ct: nat, sample: Sample)

  function After(net: Net, rounds: seq<Round>): Net {
    if rounds == [] then net
    else Step(After(net, rounds[..|rounds| - 1]), rounds[|rounds| - 1].ct, rounds[|rounds| - 1].sample).0
  }

  /** The reports of one interval, in order. */
  function Reports(net: Net, rounds: seq<Round>, ct: nat): seq<Report> {
    if rounds == [] then []
    else
      var (init, last) := (rounds[..|rounds| - 1], rounds[|rounds| - 1]);
      Reports(net, init, ct) + if last.ct == ct then [Step(After(net, init), ct, last.sample).1] else []
  }

  predicate NoReset(net: Net, rounds: seq<Round>) {
    rounds == [] ||
    (var (init, last) := (rounds[..|rounds| - 1], rounds[|rounds| - 1]);
     NoReset(net, init) && !Step(After(net, init), last.ct, last.sample).1.reset)
  }

  function Only(rounds: seq<Round>, ct: nat): seq<Round> {
    if rounds == [] then []
    else Only(rounds[..|rounds| - 1], ct) + if rounds[|rounds| - 1].ct == ct then [rounds[|rounds| - 1]] else []
  }

  /** All that the samples of one interval can see of the state. */
  predicate SameFor(ct: nat, a: Net, b: Net) {
    && a.nics == b.nics
    && TrackerFor(a, ct) == TrackerFor(b, ct)
    && (ct in a.baselines <==> ct in b.baselines)
    && (ct in a.baselines ==> a.baselines[ct] == b.baselines[ct])
  }

  lemma OthersLeaveIt(net: Net, ct: nat, other: nat, s: Sample)
    requires net.nics != {} && other != ct && !Step(net, other, s).1.reset
    ensures SameFor(ct, net, Step(net, other, s).0)
  {
    hide Tallied, PerSecond, Minus;
  }

  lemma SameViewSameStep(a: Net, b: Net, ct: nat, s: Sample)
    requires a.nics != {} && SameFor(ct, a, b)
    ensures Step(a, ct, s).1 == Step(b, ct, s).1
    ensures !Step(a, ct, s).1.reset ==> SameFor(ct, Step(a, ct, s).0, Step(b, ct, s).0)
  {
    hide TrackAll, PerSecond, Minus;
  }

  lemma SameForJoin(ct: nat, a: Net, b: Net, c: Net)
    requires SameFor(ct, a, b) && SameFor(ct, b, c)
    ensures SameFor(ct, a, c) && SameFor(ct, c, a)
  {
    hide TrackerFor;
  }

  /** While no sample resets, the reports of an interval are those it would make if the samples of the
      other intervals had never been taken. */
  lemma {:induction false} IntervalsDoNotInterfere(net: Net, rounds: seq<Round>, ct: nat)
    requires net.nics != {} && NoReset(net, rounds)
    ensures Reports(net, rounds, ct) == Reports(net, Only(rounds, ct), ct)
    ensures NoReset(net, Only(rounds, ct))
    ensures SameFor(ct, After(net, rounds), After(net, Only(rounds, ct)))
    ensures After(net, rounds).nics == net.nics
  {
    if rounds != [] {
      var init, last := rounds[..|rounds| - 1], rounds[|rounds| - 1];
      var a, b := After(net, init), After(net, Only(init, ct));
      IntervalsDoNotInterfere(net, init, ct);
      assert last.ct == ct ==> Only(rounds, ct)[..|Only(init, ct)|] == Only(init, ct);
      assert last.ct != ct ==> Only(rounds, ct) == Only(init, ct);
      hide SameFor, Only, Step;
      KeepsNics(a, last.ct, last.sample);
      if last.ct == ct {
        SameViewSameStep(a, b, ct, last.sample);
      } else {
        OthersLeaveIt(a, ct, last.ct, last.sample);
        SameForFlip(ct, a, After(net, rounds));
        SameForJoin(ct, After(net, rounds), a, b);
      }
    }
  }

  lemma SameForFlip(ct: nat, a: Net, b: Net)
    requires SameFor(ct, a, b)
    ensures SameFor(ct, b, a)
  {
    hide TrackerFor;
  }

  lemma KeepsNics(net: Net, ct: nat, s: Sample)
    requires net.nics != {} && !Step(net, ct, s).1.reset
    ensures Step(net, ct, s).0.nics == net.nics
  {
    hide Tallied, PerSecond, Minus;
  }

  // ---------------------------------------------------------------- traffic of one interface

  /** A counter in the operating system and the bytes truly transferred since it was first watched. */
  datatype Wire = Wire(counter: Word, bytes: nat)

  datatype WireEvent = Transfer(n: nat) | Restart

  function Next(w: Wire, e: WireEvent): Wire {
    match e
    case Transfer(n) => Wire((w.counter + n) % WORD, w.bytes + n)
    case Restart => Wire(0, w.bytes)
  }

  function Moved(w: Wire, es: seq<WireEvent>): Wire {
    if es == [] then w else Next(Moved(w, es[..|es| - 1]), es[|es| - 1])
  }

  /** b can follow a: either the counter grew with the traffic, or it restarted (or wrapped around) in
      between and counts at most the traffic. */
  predicate Follows(a: Wire, b: Wire) {
    && a.bytes <= b.bytes
    && (b.counter - a.counter == b.bytes - a.bytes || b.counter <= b.bytes - a.bytes)
  }

  lemma {:induction false} WiresFollow(w: Wire, es: seq<WireEvent>)
    ensures Follows(w, Moved(w, es))
  {
    if es != [] {
      var last := es[|es| - 1];
      WiresFollow(w, es[..|es| - 1]);
      if last.Transfer? { WrapsBelow(Moved(w, es[..|es| - 1]).counter, last.n); }
    }
  }

  /** The bytes a sample attributes to an interface were truly transferred since the last one. */
  lemma BytesSinceAreReal(previous: map<string, Word>, k: string, a: Wire, b: Wire)
    requires Follows(a, b) && (k in previous ==> previous[k] == a.counter)
    ensures BytesSince(previous, k, b.counter) <= b.bytes - a.bytes
  {}

  lemma RateIsBelow(bytes: Word, ms: nat)
    ensures PerSecond(bytes, ms) * ms <= 1000 * bytes
  {
    if ms > 0 { QuotientTimes(bytes * 1000 % WORD, ms); }
  }

  lemma QuotientTimes(w: nat, ms: nat)
    requires ms > 0
    ensures w / ms * ms <= w < (w / ms + 1) * ms
  {}

  /** Milli-bytes one sample reports for an interface: its rate times the elapsed milliseconds. */
  function ReportedBy(net: Net, r: Round, name: string, up: bool): nat {
    var (ready, report) := (Ready(net, r.sample), Step(net, r.ct, r.sample).1);
    if name in report.nics then Rate(report.nics[name], up) * Elapsed(ready, r.ct, r.sample.now) else 0
  }

  function Reported(net: Net, rounds: seq<Round>, ct: nat, name: string, up: bool): nat {
    if rounds == [] then 0
    else
      var (init, last) := (rounds[..|rounds| - 1], rounds[|rounds| - 1]);
      Reported(net, init, ct, name, up) + if last.ct == ct then ReportedBy(After(net, init), last, name, up) else 0
  }

  /** The wire at each round, before the reading is taken; the readings show its counter if they list
      the interface. */
  predicate Shows(wires: seq<Wire>, rounds: seq<Round>, name: string, up: bool) {
    && |wires| == |rounds|
    && (forall i | 0 < i < |wires| :: Follows(wires[i - 1], wires[i]))
    && (forall i | 0 <= i < |rounds| :: Read(wires[i], rounds[i].sample, name, up))
  }

  predicate Read(w: Wire, s: Sample, name: string, up: bool) {
    s.reading.Some? && LastOf(s.reading.value, name).Some? ==>
      Value(LastOf(s.reading.value, name).value, up) == w.counter
  }

  /** The tracker of ct holds the counter that the wire had at some earlier time w. */
  predicate Remembers(net: Net, ct: nat, k: string, w: Wire) {
    k in TrackerFor(net, ct).current ==> TrackerFor(net, ct).current[k] == w.counter
  }

  lemma StepRemembers(net: Net, r: Round, ct: nat, name: string, up: bool, w: Wire, now: Wire) returns (w': Wire)
    requires Remembers(net, ct, Key(name, up), w) && Follows(w, now) && Read(now, r.sample, name, up)
    ensures Remembers(Step(net, r.ct, r.sample).0, ct, Key(name, up), w')
    ensures Follows(w', now) && w'.bytes >= w.bytes
    ensures r.ct == ct ==> ReportedBy(net, r, name, up) <= 1000 * (w'.bytes - w.bytes)
  {
    var s := r.sample;
    var ready := Ready(net, s);
    if s.reading.None? || r.ct != ct {
      w' := if Step(net, r.ct, s).1.reset then now else w;
      hide Tallied, PerSecond, Minus;
    } else {
      var t0 := Tally(Cycled(TrackerFor(ready, ct)), 0, 0, map[]);
      TrackAllAt(ready.nics, Elapsed(ready, ct, s.now), t0, s.reading.value, name, up);
      BytesSinceAreReal(t0.tracker.previous, Key(name, up), w, now);
      RateIsBelow(BytesSince(t0.tracker.previous, Key(name, up), now.counter), Elapsed(ready, ct, s.now));
      w' := now;
      hide TrackAll, PerSecond, Minus, BytesSince;
    }
  }

  lemma {:induction false} RememberedBytes(
    nics: set<string>, rounds: seq<Round>, wires: seq<Wire>, ct: nat, name: string, up: bool) returns (w: Wire)
    requires Shows(wires, rounds, name, up) && rounds != []
    ensures Remembers(After(Fresh(nics), rounds), ct, Key(name, up), w)
    ensures Follows(w, wires[|wires| - 1]) && w.bytes >= wires[0].bytes
    ensures Reported(Fresh(nics), rounds, ct, name, up) <= 1000 * (w.bytes - wires[0].bytes)
  {
    var n := |rounds| - 1;
    if n == 0 {
      assert rounds[..0] == [];
      w := StepRemembers(Fresh(nics), rounds[0], ct, name, up, wires[0], wires[0]);
    } else {
      var v := RememberedBytes(nics, rounds[..n], wires[..n], ct, name, up);
      hide Remembers, Step, Fresh, ReportedBy, Read, Key;
      w := StepRemembers(After(Fresh(nics), rounds[..n]), rounds[n], ct, name, up, v, wires[n]);
    }
  }

  /** Traffic is never over-reported: from the agent's start on, over any samples of any intervals, with
      counters restarting, samples missed, and resets at any time, the rates an interval reports for an
      interface amount to no more than what was transferred. */
  lemma {:induction false} NeverOverReported(
    nics: set<string>, rounds: seq<Round>, wires: seq<Wire>, ct: nat, name: string, up: bool)
    requires Shows(wires, rounds, name, up) && rounds != []
    ensures Reported(Fresh(nics), rounds, ct, name, up) <= 1000 * (wires[|wires| - 1].bytes - wires[0].bytes)
  {
    var w := RememberedBytes(nics, rounds, wires, ct, name, up);
    hide Reported, Remembers, After;
  }

  // ---------------------------------------------------------------- nothing is lost either

  /** Bytes the samples of one interval attribute to an interface. */
  function Attributed(net: Net, rounds: seq<Round>, ct: nat, name: string, up: bool): nat {
    if rounds == [] then 0
    else
      var (init, last) := (rounds[..|rounds| - 1], rounds[|rounds| - 1]);
      Attributed(net, init, ct, name, up) + if last.ct == ct then AttributedBy(After(net, init), last, name, up) else 0
  }

  function AttributedBy(net: Net, r: Round, name: string, up: bool): nat {
    if r.sample.reading.Some? && LastOf(r.sample.reading.value, name).Some?
    then BytesSince(TrackerFor(net, r.ct).current, Key(name, up), Value(LastOf(r.sample.reading.value, name).value, up))
    else 0
  }

  /** Every sample of the interval lists the interface, with a counter that has not gone down. */
  predicate Steady(net: Net, rounds: seq<Round>, ct: nat, name: string, up: bool) {
    rounds == [] ||
    (var (init, last) := (rounds[..|rounds| - 1], rounds[|rounds| - 1]);
     Steady(net, init, ct, name, up)
     && (last.ct == ct ==>
           && Listed(last.sample, name)
           && Counts(After(net, init), ct, name, up) <= Value(Entry(last.sample, name), up)))
  }

  predicate Listed(s: Sample, name: string) { s.reading.Some? && LastOf(s.reading.value, name).Some? }

  function Entry(s: Sample, name: string): Counter
    requires Listed(s, name)
  {
    LastOf(s.reading.value, name).value
  }

  /** The counter value at the interval's last sample. */
  function Counts(net: Net, ct: nat, name: string, up: bool): Word {
    if Key(name, up) in TrackerFor(net, ct).current then TrackerFor(net, ct).current[Key(name, up)] else 0
  }

  lemma SteadyStep(net: Net, r: Round, ct: nat, name: string, up: bool)
    requires name in net.nics && Key(name, up) in TrackerFor(net, ct).current && !Step(net, r.ct, r.sample).1.reset
    requires r.ct == ct ==> Listed(r.sample, name) && Counts(net, ct, name, up) <= Value(Entry(r.sample, name), up)
    ensures
      var net' := Step(net, r.ct, r.sample).0;
      && name in net'.nics && Key(name, up) in TrackerFor(net', ct).current
      && Counts(net', ct, name, up) ==
         Counts(net, ct, name, up) + if r.ct == ct then AttributedBy(net, r, name, up) else 0
  {
    var s := r.sample;
    if r.ct == ct {
      var t0 := Tally(Cycled(TrackerFor(net, ct)), 0, 0, map[]);
      TrackAllAt(net.nics, Elapsed(net, ct, s.now), t0, s.reading.value, name, up);
      hide TrackAll, PerSecond, Minus, LastOf;
    } else {
      hide Tallied, PerSecond, Minus;
    }
  }

  /** Once an interface has been sampled, and as long as there is no reset and no missed sample, the
      bytes attributed to it telescope: they are the difference between its last and first counters. */
  lemma {:induction false} AttributedTelescopes(net: Net, rounds: seq<Round>, ct: nat, name: string, up: bool)
    requires name in net.nics && Key(name, up) in TrackerFor(net, ct).current
    requires NoReset(net, rounds) && Steady(net, rounds, ct, name, up)
    ensures
      var net' := After(net, rounds);
      && name in net'.nics && Key(name, up) in TrackerFor(net', ct).current
      && Attributed(net, rounds, ct, name, up) == Counts(net', ct, name, up) - Counts(net, ct, name, up)
  {
    if rounds != [] {
      AttributedTelescopes(net, rounds[..|rounds| - 1], ct, name, up);
      hide Step, AttributedBy, Counts, TrackerFor, Key, Listed, Entry;
      SteadyStep(After(net, rounds[..|rounds| - 1]), rounds[|rounds| - 1], ct, name, up);
    }
  }

  /** A reported rate is the attributed bytes per second, rounded down. */
  lemma RateOfAttributed(net: Net, r: Round, name: string, up: bool)
    requires name in net.nics && Listed(r.sample, name) && Elapsed(net, r.ct, r.sample.now) > 0
    requires 1000 * AttributedBy(net, r, name, up) < WORD
    ensures
      var report := Step(net, r.ct, r.sample).1;
      && name in report.nics
      && Rate(report.nics[name], up) == 1000 * AttributedBy(net, r, name, up) / Elapsed(net, r.ct, r.sample.now)
  {
    var t0 := Tally(Cycled(TrackerFor(net, r.ct)), 0, 0, map[]);
    TrackAllAt(net.nics, Elapsed(net, r.ct, r.sample.now), t0, r.sample.reading.value, name, up);
    SmallMod(1000 * AttributedBy(net, r, name, up));
    hide TrackAll, Minus, LastOf, BytesSince;
  }
}
