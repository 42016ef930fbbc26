/** The averages of system stats, field by field over the records. */
module SystemStatsFields {
  import opened Wrappers
  import opened Numbers
  import opened Words
  import opened Averages
  import opened SystemStats

  // ---------------------------------------------------------------- blocks

  function Plains(bs: seq<Block>, k: nat): seq<nat> {
    seq(|bs|, i requires 0 <= i < |bs| => if k < |bs[i].plain| then bs[i].plain[k] else 0)
  }

  function Gauges(bs: seq<Block>, k: nat): seq<nat> {
    seq(|bs|, i requires 0 <= i < |bs| => if k < |bs[i].gauges| then bs[i].gauges[k].now else 0)
  }

  function GaugePeaks(bs: seq<Block>, k: nat): seq<nat> {
    seq(|bs|, i requires 0 <= i < |bs| => if k < |bs[i].gauges| then bs[i].gauges[k].max else 0)
  }

  function Rates(bs: seq<Block>, k: nat): seq<nat> {
    seq(|bs|, i requires 0 <= i < |bs| => if k < |bs[i].bytes| then bs[i].bytes[k].now else 0)
  }

  function RatePeaks(bs: seq<Block>, k: nat): seq<nat> {
    seq(|bs|, i requires 0 <= i < |bs| => if k < |bs[i].bytes| then bs[i].bytes[k].max else 0)
  }

  /** The largest of two columns, or zero. */
  ghost predicate Peaked(xs: seq<nat>, ys: seq<nat>, top: nat) {
    && (forall i | 0 <= i < |xs| :: xs[i] <= top) && (forall i | 0 <= i < |ys| :: ys[i] <= top)
    && (top == 0 || top in xs || top in ys)
  }

  /** Gauges are rounded means, byte rates truncated means of a sum of 64 bits, peaks the largest of all current
      values and earlier peaks. */
  ghost predicate BlockMeans(bs: seq<Block>, t: Block)
    requires bs != []
  {
    var n := |bs|;
    && (forall k | 0 <= k < |t.plain| :: t.plain[k] == (2 * SumOf(Plains(bs, k)) + n) / (2 * n))
    && (forall k | 0 <= k < |t.gauges| ::
          && t.gauges[k].now == (2 * SumOf(Gauges(bs, k)) + n) / (2 * n)
          && Peaked(Gauges(bs, k), GaugePeaks(bs, k), t.gauges[k].max))
    && (forall k | 0 <= k < |t.bytes| ::
          && t.bytes[k].now == SumOf(Rates(bs, k)) % 0x1_0000_0000_0000_0000 / n
          && Peaked(Rates(bs, k), RatePeaks(bs, k), t.bytes[k].max))
  }

  lemma {:induction false} TopsPeaked(xs: seq<nat>, ys: seq<nat>, tops: seq<nat>)
    requires |xs| == |ys| == |tops| && forall i | 0 <= i < |xs| :: tops[i] == if ys[i] < xs[i] then xs[i] else ys[i]
    ensures Peaked(xs, ys, MaxOf(tops))
  {
    MaxOfIsMax(tops);
    hide MaxOf;
  }

  lemma {:induction false} AverageIs(bs: seq<Block>)
    requires Uniform(bs)
    ensures BlockMeans(bs, Average(bs))
  {
    var t := Average(bs);
    hide Average, SumOf, MaxOf, Peaked;
    forall k | 0 <= k < |t.plain| ensures t.plain[k] == RoundedNat(SumOf(Plains(bs, k)), |bs|) {
      AverageColumn(bs, Plain(k));
      assert Plains(bs, k) == Now(bs, Plain(k));
    }
    forall k | 0 <= k < |t.gauges|
      ensures t.gauges[k].now == RoundedNat(SumOf(Gauges(bs, k)), |bs|)
      ensures Peaked(Gauges(bs, k), GaugePeaks(bs, k), t.gauges[k].max)
    {
      GaugeIs(bs, k);
    }
    forall k | 0 <= k < |t.bytes|
      ensures t.bytes[k].now == SumOf(Rates(bs, k)) % WORD / |bs|
      ensures Peaked(Rates(bs, k), RatePeaks(bs, k), t.bytes[k].max)
    {
      RateIs(bs, k);
    }
    hide Uniform, Plains, Gauges, GaugePeaks, Rates, RatePeaks;
  }

  lemma GaugeIs(bs: seq<Block>, k: nat)
    requires Uniform(bs) && k < |bs[0].gauges|
    ensures Average(bs).gauges[k].now == RoundedNat(SumOf(Gauges(bs, k)), |bs|)
    ensures Peaked(Gauges(bs, k), GaugePeaks(bs, k), Average(bs).gauges[k].max)
  {
    hide Average, SumOf, MaxOf, Peaked;
    AverageColumn(bs, Gauge(k));
    assert Gauges(bs, k) == Now(bs, Gauge(k));
    TopsPeaked(Gauges(bs, k), GaugePeaks(bs, k), Tops(bs, Gauge(k)));
  }

  lemma RateIs(bs: seq<Block>, k: nat)
    requires Uniform(bs) && k < |bs[0].bytes|
    ensures Average(bs).bytes[k].now == SumOf(Rates(bs, k)) % WORD / |bs|
    ensures Peaked(Rates(bs, k), RatePeaks(bs, k), Average(bs).bytes[k].max)
  {
    hide Average, SumOf, MaxOf, Peaked;
    AverageColumn(bs, Bytes(k));
    assert Rates(bs, k) == Now(bs, Bytes(k));
    TopsPeaked(Rates(bs, k), RatePeaks(bs, k), Tops(bs, Bytes(k)));
  }

  // ---------------------------------------------------------------- scalars

  function Blocks(rs: seq<Stats>): seq<Block> {
    seq(|rs|, i requires 0 <= i < |rs| => rs[i].main)
  }

  function Levels(rs: seq<Stats>): seq<nat> {
    seq(|rs|, i requires 0 <= i < |rs| => rs[i].battery)
  }

  /** All scalars of the average; of the battery the mean level, rounded down, and the latest charge state. */
  lemma {:induction false} ScalarMeans(rs: seq<Stats>, avg: Stats)
    requires rs != [] && Averaged(rs, avg)
    ensures BlockMeans(Blocks(rs), avg.main)
    ensures avg.battery == SumOf(Levels(rs)) / |rs| && avg.charge == rs[|rs| - 1].charge
  {
    assert Blocks(rs) == Mains(rs) && Levels(rs) == Batteries(rs);
    AverageIs(Blocks(rs));
    hide BlockMeans, Average, SumOf, RaggedAverage, TemperaturesAveraged, NicsDivided, FsDivided;
  }

  // ---------------------------------------------------------------- lists

  function CoreColumn(rs: seq<Stats>, k: nat): seq<nat> {
    seq(|rs|, i requires 0 <= i < |rs| => if k < |rs[i].cores| then rs[i].cores[k] else 0)
  }

  function BreakdownColumn(rs: seq<Stats>, k: nat): seq<nat> {
    seq(|rs|, i requires 0 <= i < |rs| => if k < |rs[i].breakdown| then rs[i].breakdown[k] else 0)
  }

  lemma {:induction false} LongestIs(xs: seq<nat>)
    requires xs != []
    ensures (forall i | 0 <= i < |xs| :: xs[i] <= MaxOf(xs)) && exists i :: 0 <= i < |xs| && xs[i] == MaxOf(xs)
  {
    MaxOfIsMax(xs);
    if MaxOf(xs) == 0 {
      assert xs[0] == 0;
    }
    hide MaxOf;
  }

  /** As many cores as the record with the most; each the rounded mean over all records, zero where missing. */
  lemma {:induction false} CoreMeans(rs: seq<Stats>, avg: Stats)
    requires rs != [] && Averaged(rs, avg)
    ensures forall i | 0 <= i < |rs| :: |rs[i].cores| <= |avg.cores|
    ensures exists r :: r in rs && |r.cores| == |avg.cores|
    ensures forall k | 0 <= k < |avg.cores| ::
              avg.cores[k] == (2 * SumOf(CoreColumn(rs, k)) + |rs|) / (2 * |rs|)
  {
    CoresAverage(rs, avg);
    LongestIs(Lengths(Cores(rs)));
    hide Averaged, MaxOf, SumOf;
    forall i | 0 <= i < |rs| ensures |rs[i].cores| <= |avg.cores| {
      assert Lengths(Cores(rs))[i] == |rs[i].cores|;
    }
    var j :| 0 <= j < |rs| && Lengths(Cores(rs))[j] == |avg.cores|;
    assert rs[j] in rs;
    forall k | 0 <= k < |avg.cores| ensures Items(Cores(rs), k) == CoreColumn(rs, k) {}
  }

  lemma {:induction false} BreakdownMeans(rs: seq<Stats>, avg: Stats)
    requires rs != [] && Averaged(rs, avg)
    ensures forall i | 0 <= i < |rs| :: |rs[i].breakdown| <= |avg.breakdown|
    ensures exists r :: r in rs && |r.breakdown| == |avg.breakdown|
    ensures forall k | 0 <= k < |avg.breakdown| ::
              avg.breakdown[k] == (2 * SumOf(BreakdownColumn(rs, k)) + |rs|) / (2 * |rs|)
  {
    BreakdownAverage(rs, avg);
    LongestIs(Lengths(Breakdowns(rs)));
    hide Averaged, MaxOf, SumOf;
    forall i | 0 <= i < |rs| ensures |rs[i].breakdown| <= |avg.breakdown| {
      assert Lengths(Breakdowns(rs))[i] == |rs[i].breakdown|;
    }
    var j :| 0 <= j < |rs| && Lengths(Breakdowns(rs))[j] == |avg.breakdown|;
    assert rs[j] in rs;
    forall k | 0 <= k < |avg.breakdown| ensures Items(Breakdowns(rs), k) == BreakdownColumn(rs, k) {}
  }

  // ---------------------------------------------------------------- interfaces

  function UpColumn(rs: seq<Stats>, k: string): seq<nat> {
    seq(|rs|, i requires 0 <= i < |rs| => if k in rs[i].nics then rs[i].nics[k].up else 0)
  }

  function DownColumn(rs: seq<Stats>, k: string): seq<nat> {
    seq(|rs|, i requires 0 <= i < |rs| => if k in rs[i].nics then rs[i].nics[k].down else 0)
  }

  function TotalUpColumn(rs: seq<Stats>, k: string): seq<nat> {
    seq(|rs|, i requires 0 <= i < |rs| => if k in rs[i].nics then rs[i].nics[k].totalUp else 0)
  }

  function TotalDownColumn(rs: seq<Stats>, k: string): seq<nat> {
    seq(|rs|, i requires 0 <= i < |rs| => if k in rs[i].nics then rs[i].nics[k].totalDown else 0)
  }

  /** The interfaces of all records; up and down rates are means of their own columns, totals the largest of
      theirs. */
  lemma {:induction false} NicMeans(rs: seq<Stats>, avg: Stats, k: string)
    requires rs != [] && Averaged(rs, avg)
    ensures k in avg.nics <==> exists r :: r in rs && k in r.nics
    ensures k in avg.nics ==>
              && avg.nics[k].up == SumOf(UpColumn(rs, k)) % 0x1_0000_0000_0000_0000 / |rs|
              && avg.nics[k].down == SumOf(DownColumn(rs, k)) % 0x1_0000_0000_0000_0000 / |rs|
              && Peaked(TotalUpColumn(rs, k), [], avg.nics[k].totalUp)
              && Peaked(TotalDownColumn(rs, k), [], avg.nics[k].totalDown)
  {
    NicsAverage(rs, avg, k);
    hide Averaged, SumOf;
    var c := Column(Nics(rs), k, NO_NIC);
    assert Ups(c) == UpColumn(rs, k) && Downs(c) == DownColumn(rs, k);
    assert TotalUps(c) == TotalUpColumn(rs, k) && TotalDowns(c) == TotalDownColumn(rs, k);
    MaxOfIsMax(TotalUpColumn(rs, k));
    MaxOfIsMax(TotalDownColumn(rs, k));
    hide MaxOf;
    NicsListed(rs, k);
  }

  lemma NicsListed(rs: seq<Stats>, k: string)
    ensures (exists i :: 0 <= i < |rs| && k in rs[i].nics) <==> exists r :: r in rs && k in r.nics
  {
    if r :| r in rs && k in r.nics {
      var i :| 0 <= i < |rs| && rs[i] == r;
    }
    if i :| 0 <= i < |rs| && k in rs[i].nics {
      assert rs[i] in rs;
    }
  }

  // ---------------------------------------------------------------- temperatures

  /** The readings of one sensor, summed. */
  function TemperatureSum(rs: seq<Stats>, k: string): int {
    if rs == [] then 0
    else
      var t := rs[|rs| - 1].temperatures;
      TemperatureSum(rs[..|rs| - 1], k) + if t.Some? && k in t.value then t.value[k] else 0
  }

  /** How many records carry temperatures at all. */
  function Carriers(rs: seq<Stats>): nat {
    if rs == [] then 0
    else Carriers(rs[..|rs| - 1]) + if rs[|rs| - 1].temperatures.Some? then 1 else 0
  }

  lemma {:induction false} TemperatureSumIs(rs: seq<Stats>, k: string)
    ensures Fold(SystemStats.Column(Temperatures(rs), k, 0), 0, PlusInt) == TemperatureSum(rs, k)
    ensures WithTemperatures(rs) == Carriers(rs)
    ensures Carriers(rs) == 0 <==> forall i | 0 <= i < |rs| :: rs[i].temperatures.None?
  {
    if rs != [] {
      var n := |rs| - 1;
      TemperatureSumIs(rs[..n], k);
      var c := SystemStats.Column(Temperatures(rs), k, 0);
      assert c[..n] == SystemStats.Column(Temperatures(rs[..n]), k, 0);
      var t := rs[n].temperatures;
      assert c[n] == if t.Some? && k in t.value then t.value[k] else 0;
    }
  }

  /** The sensors of all records; the sum of the readings over the number of records that carry temperatures,
      rounded to hundredths, half away from zero. */
  lemma {:induction false} TemperatureMeans(rs: seq<Stats>, avg: Stats, k: string)
    requires rs != [] && Averaged(rs, avg)
    ensures avg.temperatures.Some? <==> exists r :: r in rs && r.temperatures.Some?
    ensures avg.temperatures.Some? ==>
              (k in avg.temperatures.value <==>
               exists r :: r in rs && r.temperatures.Some? && k in r.temperatures.value)
    ensures avg.temperatures.Some? && k in avg.temperatures.value ==>
              && var (sum, m) := (TemperatureSum(rs, k), Carriers(rs));
              && m > 0
              && avg.temperatures.value[k] == if sum >= 0 then (2 * sum + m) / (2 * m) else -((-2 * sum + m) / (2 * m))
  {
    TemperaturesAverage(rs, avg, k);
    TemperatureSumIs(rs, k);
    assert WithTemperatures(rs) == 0 <==> avg.temperatures.None?;
    hide Averaged, Fold, SystemStats.Column, Temperatures, WithTemperatures, Carriers, TemperatureSum;
    SensorsListed(rs, k);
  }

  lemma SensorsListed(rs: seq<Stats>, k: string)
    ensures (exists i :: 0 <= i < |rs| && k in Given(rs[i].temperatures))
       <==> exists r :: r in rs && r.temperatures.Some? && k in r.temperatures.value
    ensures (exists i :: 0 <= i < |rs| && rs[i].temperatures.Some?) <==> exists r :: r in rs && r.temperatures.Some?
  {
    if r :| r in rs && r.temperatures.Some? {
      var i :| 0 <= i < |rs| && rs[i] == r;
    }
    if r :| r in rs && r.temperatures.Some? && k in r.temperatures.value {
      var i :| 0 <= i < |rs| && rs[i] == r;
      assert k in Given(rs[i].temperatures);
    }
    if i :| 0 <= i < |rs| && k in Given(rs[i].temperatures) {
      assert rs[i] in rs;
    }
  }

  // ---------------------------------------------------------------- filesystems

  /** The blocks of one filesystem; all zeros where a record lacks it. */
  ghost predicate Listed(rs: seq<Stats>, k: string, bs: seq<Block>) {
    |bs| == |rs| && forall i | 0 <= i < |rs| ::
      if rs[i].extraFs.Some? && k in rs[i].extraFs.value then bs[i] == rs[i].extraFs.value[k]
      else bs[i] == Block([0, 0], seq(8, _ => Peak(0, 0)), [Peak(0, 0), Peak(0, 0)])
  }

  /** The filesystems of all records; each field the mean, and each peak the maximum, over all records. */
  lemma {:induction false} FilesystemMeans(rs: seq<Stats>, avg: Stats, k: string, bs: seq<Block>)
    requires rs != [] && Averaged(rs, avg) && Listed(rs, k, bs)
    ensures
      (avg.extraFs.Some? && k in avg.extraFs.value) <==>
      exists r :: r in rs && r.extraFs.Some? && k in r.extraFs.value
    ensures avg.extraFs.Some? && k in avg.extraFs.value ==> BlockMeans(bs, avg.extraFs.value[k])
  {
    FilesystemsAverage(rs, avg, k);
    var c := SystemStats.Column(Filesystems(rs), k, NO_FS);
    ListedIs(rs, k, bs);
    AverageIs(c);
    hide Averaged, Average, BlockMeans, SystemStats.Column, Filesystems;
    FilesystemsListed(rs, k);
  }

  lemma ListedIs(rs: seq<Stats>, k: string, bs: seq<Block>)
    requires Listed(rs, k, bs)
    ensures bs == SystemStats.Column(Filesystems(rs), k, NO_FS)
  {
    var c := SystemStats.Column(Filesystems(rs), k, NO_FS);
    ZeroIs();
    hide Zero;
    forall i | 0 <= i < |rs| ensures bs[i] == c[i] {}
  }

  lemma ZeroIs()
    ensures NO_FS == Block([0, 0], seq(8, _ => Peak(0, 0)), [Peak(0, 0), Peak(0, 0)])
  {}

  lemma FilesystemsListed(rs: seq<Stats>, k: string)
    ensures (exists i :: 0 <= i < |rs| && k in Given(rs[i].extraFs))
       <==> exists r :: r in rs && r.extraFs.Some? && k in r.extraFs.value
  {
    if r :| r in rs && r.extraFs.Some? && k in r.extraFs.value {
      var i :| 0 <= i < |rs| && rs[i] == r;
      assert k in Given(rs[i].extraFs);
    }
    if i :| 0 <= i < |rs| && k in Given(rs[i].extraFs) {
      assert rs[i] in rs;
    }
  }
}
