/** When the published totals over all interfaces amount to real traffic. */
module NetworkTotals {
  import opened Wrappers
  import opened Words
  import DeltaTracking
  import opened NetworkRates
  import opened NetworkLaws

  /** The counters of the tracked interfaces, by name. */
  ghost predicate Enumerates(names: seq<string>, nics: set<string>) {
    && (forall x :: x in names <==> x in nics)
    && (forall i, j | 0 <= i < j < |names| :: names[i] != names[j])
  }

  predicate DistinctNames(reading: seq<Counter>) {
    forall i, j | 0 <= i < j < |reading| :: reading[i].name != reading[j].name
  }

  function CounterOf(reading: seq<Counter>, name: string, up: bool): nat {
    var c := LastOf(reading, name);
    if c.Some? then Value(c.value, up) else 0
  }

  predicate Has(reading: seq<Counter>, name: string) { LastOf(reading, name).Some? }

  function SumOver(names: seq<string>, reading: seq<Counter>, up: bool): nat {
    if names == [] then 0 else CounterOf(reading, names[0], up) + SumOver(names[1..], reading, up)
  }

  lemma {:induction false} SumOverNext(names: seq<string>, init: seq<Counter>, v: Counter, up: bool)
    requires (forall i, j | 0 <= i < j < |names| :: names[i] != names[j]) && !Has(init, v.name)
    ensures SumOver(names, init + [v], up) == SumOver(names, init, up) + if v.name in names then Value(v, up) else 0
  {
    if names != [] {
      SumOverNext(names[1..], init, v, up);
      assert (init + [v])[..|init|] == init;
      hide SumOver;
      assert v.name in names <==> v.name == names[0] || v.name in names[1..];
      if v.name == names[0] { assert v.name !in names[1..]; }
    }
  }

  /** The total of a reading that lists each interface once is the sum over the tracked interfaces. */
  lemma {:induction false} TotalIsSum(names: seq<string>, nics: set<string>, reading: seq<Counter>, up: bool)
    requires Enumerates(names, nics) && DistinctNames(reading)
    ensures Total(nics, reading, up) == SumOver(names, reading, up)
  {
    if reading == [] {
      NothingListed(names, up);
    } else {
      var init, v := reading[..|reading| - 1], reading[|reading| - 1];
      TotalIsSum(names, nics, init, up);
      NotListed(init, v.name);
      assert init + [v] == reading;
      SumOverNext(names, init, v, up);
    }
  }

  lemma {:induction false} NothingListed(names: seq<string>, up: bool)
    ensures SumOver(names, [], up) == 0
  {
    if names != [] { NothingListed(names[1..], up); }
  }

  lemma {:induction false} NotListed(reading: seq<Counter>, name: string)
    requires forall i | 0 <= i < |reading| :: reading[i].name != name
    ensures !Has(reading, name)
  {
    if reading != [] { NotListed(reading[..|reading| - 1], name); }
  }

  // ---------------------------------------------------------------- real traffic

  function Bytes(traffic: map<string, nat>, name: string): nat { if name in traffic then traffic[name] else 0 }

  function Traffic(names: seq<string>, traffic: map<string, nat>): nat {
    if names == [] then 0 else Bytes(traffic, names[0]) + Traffic(names[1..], traffic)
  }

  /** This much traffic between two readings explains them: every interface listed in both grew by its traffic,
      or restarted and counts at most its traffic. */
  predicate Explains(names: seq<string>, before: seq<Counter>, now: seq<Counter>, up: bool, traffic: map<string, nat>) {
    forall i | 0 <= i < |names| && Has(before, names[i]) && Has(now, names[i]) ::
      Follows(Wire(CounterOf(before, names[i], up), 0), Wire(CounterOf(now, names[i], up), Bytes(traffic, names[i])))
  }

  /** An interface whose old counter no longer counts: gone, or restarted. */
  predicate Lost(before: seq<Counter>, now: seq<Counter>, name: string, up: bool) {
    Has(before, name) && (!Has(now, name) || CounterOf(now, name, up) < CounterOf(before, name, up))
  }

  function LostCounters(names: seq<string>, before: seq<Counter>, now: seq<Counter>, up: bool): nat {
    if names == [] then 0
    else
      (if Lost(before, now, names[0], up) then CounterOf(before, names[0], up) else 0)
      + LostCounters(names[1..], before, now, up)
  }

  /** The counters of interfaces that the earlier reading did not list. */
  function NewCounters(names: seq<string>, before: seq<Counter>, now: seq<Counter>, up: bool): nat {
    if names == [] then 0
    else
      (if Has(before, names[0]) then 0 else CounterOf(now, names[0], up)) + NewCounters(names[1..], before, now, up)
  }

  /** The least traffic of one interface that explains two readings. */
  function LeastBytes(before: seq<Counter>, now: seq<Counter>, name: string, up: bool): nat {
    var (b, n) := (CounterOf(before, name, up), CounterOf(now, name, up));
    if !Has(before, name) || !Has(now, name) then 0 else if n >= b then n - b else n
  }

  function Least(names: seq<string>, before: seq<Counter>, now: seq<Counter>, up: bool): map<string, nat> {
    map x | x in names :: LeastBytes(before, now, x, up)
  }

  lemma {:induction false} RiseIs(
    names: seq<string>, before: seq<Counter>, now: seq<Counter>, up: bool, least: map<string, nat>)
    requires forall i | 0 <= i < |names| :: Bytes(least, names[i]) == LeastBytes(before, now, names[i], up)
    ensures SumOver(names, now, up) + LostCounters(names, before, now, up)
            == SumOver(names, before, up) + Traffic(names, least) + NewCounters(names, before, now, up)
  {
    if names != [] {
      assert forall i | 0 <= i < |names[1..]| :: names[1..][i] == names[i + 1];
      RiseIs(names[1..], before, now, up, least);
      OneRise(before, now, names[0], up);
      hide LeastBytes, Lost, CounterOf, Has;
    }
  }

  lemma OneRise(before: seq<Counter>, now: seq<Counter>, x: string, up: bool)
    ensures CounterOf(now, x, up) + (if Lost(before, now, x, up) then CounterOf(before, x, up) else 0)
            == CounterOf(before, x, up) + LeastBytes(before, now, x, up)
               + if Has(before, x) then 0 else CounterOf(now, x, up)
  {}

  lemma {:induction false} LeastIsLeast(
    names: seq<string>, before: seq<Counter>, now: seq<Counter>, up: bool,
    least: map<string, nat>, traffic: map<string, nat>)
    requires forall i | 0 <= i < |names| :: Bytes(least, names[i]) == LeastBytes(before, now, names[i], up)
    requires Explains(names, before, now, up, traffic)
    ensures Traffic(names, least) <= Traffic(names, traffic)
  {
    if names != [] {
      assert forall i | 0 <= i < |names[1..]| :: names[1..][i] == names[i + 1];
      hide CounterOf, Has;
      LeastIsLeast(names[1..], before, now, up, least, traffic);
      assert LeastBytes(before, now, names[0], up) <= Bytes(traffic, names[0]);
    }
  }

  lemma LeastExplains(names: seq<string>, before: seq<Counter>, now: seq<Counter>, up: bool)
    ensures Explains(names, before, now, up, Least(names, before, now, up))
    ensures forall i | 0 <= i < |names| ::
              Bytes(Least(names, before, now, up), names[i]) == LeastBytes(before, now, names[i], up)
  {
    hide CounterOf, Has;
    assert forall i | 0 <= i < |names| :: names[i] in Least(names, before, now, up);
  }

  /** The rise of a total is covered by the traffic, whatever traffic explains the readings, if and only if the
      counters that newly appear do not outweigh those that were lost. */
  lemma {:induction false} TotalsHonestIff(names: seq<string>, before: seq<Counter>, now: seq<Counter>, up: bool)
    ensures
      (forall traffic | Explains(names, before, now, up, traffic) ::
         SumOver(names, now, up) - SumOver(names, before, up) <= Traffic(names, traffic))
      <==> NewCounters(names, before, now, up) <= LostCounters(names, before, now, up)
  {
    var least := Least(names, before, now, up);
    LeastExplains(names, before, now, up);
    RiseIs(names, before, now, up, least);
    hide Explains, SumOver, Traffic, NewCounters, LostCounters, Least, LeastBytes, Bytes;
    forall traffic | Explains(names, before, now, up, traffic)
      ensures Traffic(names, least) <= Traffic(names, traffic)
    {
      LeastIsLeast(names, before, now, up, least, traffic);
    }
  }

  function Published(r: Report, up: bool): nat { if up then r.sent else r.recv }

  function BaselineTotal(net: Net, ct: nat, up: bool): Word {
    if up then BaselineFor(net, ct).sent else BaselineFor(net, ct).recv
  }

  /** A sample publishes at most the rise of its total, whatever the other total does, and nothing else moves the
      baseline. */
  lemma {:induction false} PublishedWithinRise(net: Net, ct: nat, s: Sample, up: bool)
    requires net.nics != {} && s.reading.Some? && ct in net.baselines && !Step(net, ct, s).1.reset
    requires BaselineTotal(net, ct, up) <= Total(net.nics, s.reading.value, up) < WORD
    ensures
      var (net', report) := Step(net, ct, s);
      var rise := Total(net.nics, s.reading.value, up) - BaselineTotal(net, ct, up);
      && Published(report, up) * Elapsed(net, ct, s.now) <= 1000 * rise
      && ct in net'.baselines && BaselineTotal(net', ct, up) == Total(net.nics, s.reading.value, up)
      && net'.nics == net.nics
  {
    var total, ms := Total(net.nics, s.reading.value, up), Elapsed(net, ct, s.now);
    var start := Tally(DeltaTracking.Cycled(TrackerFor(net, ct)), 0, 0, map[]);
    KeepsNics(net, ct, s);
    TotalsAdd(net.nics, ms, start, s.reading.value);
    SmallMod(total);
    SmallMod(total - BaselineTotal(net, ct, up));
    RateIsBelow(total - BaselineTotal(net, ct, up), ms);
    hide TrackAll, Total, PerSecond, Elapsed, Taken;
    ResetIff(net, ct, s);
  }

  /** So as long as the counters that newly appear do not outweigh those that were lost, a published total over the
      elapsed time is at most the real traffic. */
  lemma {:induction false} PublishedTotalIsReal(
    net: Net, ct: nat, s: Sample, names: seq<string>, before: seq<Counter>, traffic: map<string, nat>, up: bool)
    requires net.nics != {} && s.reading.Some? && ct in net.baselines && !Step(net, ct, s).1.reset
    requires Enumerates(names, net.nics) && DistinctNames(before) && DistinctNames(s.reading.value)
    requires BaselineTotal(net, ct, up) == Total(net.nics, before, up) <= Total(net.nics, s.reading.value, up) < WORD
    requires NewCounters(names, before, s.reading.value, up) <= LostCounters(names, before, s.reading.value, up)
    requires Explains(names, before, s.reading.value, up, traffic)
    ensures Published(Step(net, ct, s).1, up) * Elapsed(net, ct, s.now) <= 1000 * Traffic(names, traffic)
  {
    hide Total, Elapsed, Step, NewCounters, LostCounters, Explains, SumOver, Traffic, Enumerates, DistinctNames;
    PublishedWithinRise(net, ct, s, up);
    TotalIsSum(names, net.nics, before, up);
    TotalIsSum(names, net.nics, s.reading.value, up);
    TotalsHonestIff(names, before, s.reading.value, up);
  }

  // ---------------------------------------------------------------- runs

  /** What the samples of one interval publish, times the elapsed milliseconds. */
  function PublishedSum(net: Net, rounds: seq<Round>, ct: nat, up: bool): nat {
    if rounds == [] then 0
    else
      var (init, last) := (rounds[..|rounds| - 1], rounds[|rounds| - 1]);
      PublishedSum(net, init, ct, up) + if last.ct == ct then PublishedBy(After(net, init), last, up) else 0
  }

  function PublishedBy(net: Net, r: Round, up: bool): nat {
    Published(Step(net, r.ct, r.sample).1, up) * Elapsed(net, r.ct, r.sample.now)
  }

  /** The total of the interval never drops from one of its samples to the next. */
  predicate NeverDrops(net: Net, rounds: seq<Round>, ct: nat, up: bool) {
    rounds == [] ||
    (var (init, last) := (rounds[..|rounds| - 1], rounds[|rounds| - 1]);
     NeverDrops(net, init, ct, up)
     && (last.ct == ct && last.sample.reading.Some? ==>
           BaselineTotal(After(net, init), ct, up) <= Total(net.nics, last.sample.reading.value, up) < WORD))
  }

  /** The latest reading of the interval. */
  function LatestReading(before: seq<Counter>, rounds: seq<Round>, ct: nat): seq<Counter> {
    if rounds == [] then before
    else
      var last := rounds[|rounds| - 1];
      if last.ct == ct && last.sample.reading.Some? then last.sample.reading.value
      else LatestReading(before, rounds[..|rounds| - 1], ct)
  }

  lemma {:induction false} StepPublishes(net: Net, r: Round, ct: nat, up: bool)
    requires net.nics != {} && ct in net.baselines && !Step(net, r.ct, r.sample).1.reset
    requires r.ct == ct && r.sample.reading.Some? ==>
      BaselineTotal(net, ct, up) <= Total(net.nics, r.sample.reading.value, up) < WORD
    ensures
      var net' := Step(net, r.ct, r.sample).0;
      && net'.nics == net.nics && ct in net'.baselines
      && BaselineTotal(net', ct, up)
         == (if r.ct == ct && r.sample.reading.Some? then Total(net.nics, r.sample.reading.value, up)
             else BaselineTotal(net, ct, up))
      && (r.ct == ct ==> PublishedBy(net, r, up) <= 1000 * (BaselineTotal(net', ct, up) - BaselineTotal(net, ct, up)))
  {
    if r.ct != ct {
      KeepsNics(net, r.ct, r.sample);
      OthersLeaveIt(net, ct, r.ct, r.sample);
      hide Step, Total, TrackerFor;
    } else if r.sample.reading.Some? {
      hide Step, Total;
      PublishedWithinRise(net, ct, r.sample, up);
    } else {
      assert Step(net, ct, r.sample) == (net, Report(map[], 0, 0, false));
      hide Step, Total;
    }
  }

  /** Over a run without reset in which an interval's total never drops, what its samples publish amounts to no
      more than the rise of the total from its first to its last reading. */
  lemma {:induction false} PublishedSumWithinRise(
    net: Net, rounds: seq<Round>, ct: nat, before: seq<Counter>, up: bool)
    requires net.nics != {} && ct in net.baselines && BaselineTotal(net, ct, up) == Total(net.nics, before, up)
    requires NoReset(net, rounds) && NeverDrops(net, rounds, ct, up)
    ensures
      var net' := After(net, rounds);
      && net'.nics == net.nics && ct in net'.baselines
      && BaselineTotal(net', ct, up) == Total(net.nics, LatestReading(before, rounds, ct), up)
      && Total(net.nics, before, up) <= Total(net.nics, LatestReading(before, rounds, ct), up)
      && PublishedSum(net, rounds, ct, up)
         <= 1000 * (Total(net.nics, LatestReading(before, rounds, ct), up) - Total(net.nics, before, up))
  {
    if rounds != [] {
      hide Step, Total, BaselineTotal, PublishedBy;
      PublishedSumWithinRise(net, rounds[..|rounds| - 1], ct, before, up);
      StepPublishes(After(net, rounds[..|rounds| - 1]), rounds[|rounds| - 1], ct, up);
    }
  }

  /** So it amounts to no more than the real traffic if the interfaces listed last were listed first, or enough
      counters were lost in between. */
  lemma {:induction false} PublishedSumIsReal(
    net: Net, rounds: seq<Round>, ct: nat, names: seq<string>, before: seq<Counter>,
    traffic: map<string, nat>, up: bool)
    requires net.nics != {} && ct in net.baselines && BaselineTotal(net, ct, up) == Total(net.nics, before, up)
    requires NoReset(net, rounds) && NeverDrops(net, rounds, ct, up)
    requires Enumerates(names, net.nics) && DistinctNames(before) && DistinctNames(LatestReading(before, rounds, ct))
    requires NewCounters(names, before, LatestReading(before, rounds, ct), up)
             <= LostCounters(names, before, LatestReading(before, rounds, ct), up)
    requires Explains(names, before, LatestReading(before, rounds, ct), up, traffic)
    ensures PublishedSum(net, rounds, ct, up) <= 1000 * Traffic(names, traffic)
  {
    var last := LatestReading(before, rounds, ct);
    hide LatestReading, NoReset, NeverDrops, PublishedSum, Total, BaselineTotal, After;
    hide NewCounters, LostCounters, Explains, SumOver, Traffic, Enumerates, DistinctNames;
    PublishedSumWithinRise(net, rounds, ct, before, up);
    TotalIsSum(names, net.nics, before, up);
    TotalIsSum(names, net.nics, last, up);
    TotalsHonestIff(names, before, last, up);
  }

  // ---------------------------------------------------------------- an interface that is missing at times

  const A := Counter("a", 1000, 1000)
  const B := Counter("b", 1000, 1000)
  const INTERVAL: nat := 7

  function SampleAt(second: nat, reading: seq<Counter>, rescan: set<string>): Sample {
    Sample(second * 1000 * MILLISECOND, Some(reading), rescan, rescan)
  }

  lemma TwoTotals(nics: set<string>, up: bool)
    requires nics == {"a", "b"}
    ensures Total(nics, [A], up) == 1000 && Total(nics, [A, B], up) == 2000
  {
    assert [A, B][..1] == [A] && [A][..0] == [];
    assert Total(nics, [], up) == 0;
    assert Total(nics, [A], up) == 1000;
  }

  lemma AfterFirst(nics: set<string>, reading: seq<Counter>, rescan: set<string>, total: nat)
    requires nics == {"a", "b"} && total < WORD
    requires Total(nics, reading, true) == Total(nics, reading, false) == total
    ensures
      var net := Step(Fresh(nics), INTERVAL, SampleAt(0, reading, rescan)).0;
      && net.nics == nics && INTERVAL in net.baselines && net.baselines[INTERVAL] == Baseline(0, total, total)
      && Elapsed(net, INTERVAL, SampleAt(1, reading, rescan).now) == 1000
  {
    hide Total, Step;
    SmallMod(total);
    FirstSampleIsBlank(Fresh(nics), INTERVAL, SampleAt(0, reading, rescan));
    KeepsNics(Fresh(nics), INTERVAL, SampleAt(0, reading, rescan));
  }

  /** The failure, from an agent's start: two idle interfaces are tracked, of which one is missing from the first
      sample of an interval. When it is listed a second later its whole counter is published as traffic. */
  lemma MissingAtFirstOverReports(rescan: set<string>)
    ensures
      var net := Step(Fresh({"a", "b"}), INTERVAL, SampleAt(0, [A], rescan)).0;
      && Explains(["a", "b"], [A], [A, B], true, map[]) && Traffic(["a", "b"], map[]) == 0
      && Step(net, INTERVAL, SampleAt(1, [A, B], rescan)).1.sent == 1000
  {
    var nics := {"a", "b"};
    TwoTotals(nics, true);
    TwoTotals(nics, false);
    AfterFirst(nics, [A], rescan, 1000);
    IdleExplains();
    hide Step, Total, Elapsed, Explains, Traffic;
    var net := Step(Fresh(nics), INTERVAL, SampleAt(0, [A], rescan)).0;
    RisePublishesExactly(net, INTERVAL, SampleAt(1, [A, B], rescan));
  }

  lemma IdleExplains()
    ensures Explains(["a", "b"], [A], [A, B], true, map[]) && Traffic(["a", "b"], map[]) == 0
  {
    assert [A, B][..1] == [A] && [A][..0] == [];
    assert LastOf([A], "b") == LastOf([], "b") == None;
    assert LastOf([A, B], "a") == LastOf([A], "a") == Some(A);
    assert Traffic(["a", "b"], map[]) == Traffic(["b"], map[]) == Traffic([], map[]);
  }

  /** The ordinary case is noticed: both interfaces are listed, then one is missing for a sample. Its counter's
      disappearance resets everything, whatever the rescan finds, and that sample and the next publish nothing. */
  lemma MissingInBetweenResets(rescan: set<string>)
    ensures
      var net := Step(Fresh({"a", "b"}), INTERVAL, SampleAt(0, [A, B], rescan)).0;
      var (net', report') := Step(net, INTERVAL, SampleAt(1, [A], rescan));
      && report'.reset && report'.sent == report'.recv == 0
      && Blank(Step(net', INTERVAL, SampleAt(2, [A, B], rescan)).1)
  {
    var nics := {"a", "b"};
    TwoTotals(nics, true);
    TwoTotals(nics, false);
    AfterFirst(nics, [A, B], rescan, 2000);
    SmallMod(1000);
    var net := Step(Fresh(nics), INTERVAL, SampleAt(0, [A, B], rescan)).0;
    hide Step, Total, Elapsed;
    DropIsContained(net, INTERVAL, SampleAt(1, [A], rescan), INTERVAL, SampleAt(2, [A, B], rescan));
  }
}
