/** Averaging a slice of system_stats records: scalars, ragged slices and keyed maps. */
module SystemStats {
  import opened Wrappers
  import opened Numbers
  import opened Words
  import opened Averages

  /** Scalars of a system record. Plain: Mem, MemPct, MemBuffCache, MemZfsArc, Swap, SwapUsed, DiskTotal,
      DiskUsed, DiskPct, LoadAvg[0..2]. Gauges with a peak: Cpu, MemUsed, NetworkSent, NetworkRecv,
      DiskReadPs, DiskWritePs, DiskIoStats[0..5]. Bytes with a peak: Bandwidth[0..1], DiskIO[0..1]. */
  type SystemBlock = b: Block | |b.plain| == 12 && |b.gauges| == 12 && |b.bytes| == 4 witness Zero(12, 12, 4)

  /** Scalars of a filesystem. Plain: DiskTotal, DiskUsed. Gauges: DiskReadPs, DiskWritePs,
      DiskIoStats[0..5]. Bytes: DiskReadBytes, DiskWriteBytes. */
  type FsBlock = b: Block | |b.plain| == 2 && |b.gauges| == 8 && |b.bytes| == 2 witness Zero(2, 8, 2)

  type Byte = n: nat | n < 256

  /** Per-interface rates and running totals. */
  datatype Nic = Nic(up: nat, down: nat, totalUp: nat, totalDown: nat)

  datatype Stats = Stats(
    main: SystemBlock,
    battery: Byte,
    charge: Byte,
    breakdown: seq<nat>,
    cores: seq<Byte>,
    temperatures: Option<map<string, int>>,
    nics: map<string, Nic>,
    extraFs: Option<map<string, FsBlock>>)

  const Empty := Stats(Zero(12, 12, 4), 0, 0, [], [], None, map[], None)

  // ---------------------------------------------------------------- keyed maps

  function Get<V>(m: map<string, V>, k: string, zero: V): V {
    if k in m then m[k] else zero
  }

  /** Adds the entries of one record's map to the running map. */
  function Merge<V>(sum: map<string, V>, values: map<string, V>, zero: V, plus: (V, V) -> V): map<string, V> {
    map k | k in sum.Keys + values.Keys :: if k in values then plus(Get(sum, k, zero), values[k]) else sum[k]
  }

  function MergeAll<V>(ms: seq<map<string, V>>, zero: V, plus: (V, V) -> V): map<string, V> {
    if ms == [] then map[] else Merge(MergeAll(ms[..|ms| - 1], zero, plus), ms[|ms| - 1], zero, plus)
  }

  /** The values one key has over the records, with zero where it is absent. */
  function Column<V>(ms: seq<map<string, V>>, k: string, zero: V): seq<V> {
    seq(|ms|, i requires 0 <= i < |ms| => Get(ms[i], k, zero))
  }

  function Fold<V>(xs: seq<V>, zero: V, plus: (V, V) -> V): V {
    if xs == [] then zero else plus(Fold(xs[..|xs| - 1], zero, plus), xs[|xs| - 1])
  }

  /** A merged map has exactly the keys that occur somewhere, and adding a zero must not change a total
      for absent keys to count as zero. */
  lemma {:induction false} MergeAllAt<V>(ms: seq<map<string, V>>, zero: V, plus: (V, V) -> V, k: string)
    requires forall j | 0 <= j <= |ms| ::
      plus(Fold(Column(ms[..j], k, zero), zero, plus), zero) == Fold(Column(ms[..j], k, zero), zero, plus)
    ensures k in MergeAll(ms, zero, plus) <==> exists i :: 0 <= i < |ms| && k in ms[i]
    ensures Get(MergeAll(ms, zero, plus), k, zero) == Fold(Column(ms, k, zero), zero, plus)
  {
    if ms == [] {
      assert Column(ms, k, zero) == [];
    } else {
      var init, last := ms[..|ms| - 1], ms[|ms| - 1];
      forall j | 0 <= j <= |init| ensures init[..j] == ms[..j] {}
      MergeAllAt(init, zero, plus, k);
      var c := Column(ms, k, zero);
      assert c[..|c| - 1] == Column(init, k, zero);
      assert ms[..|init|] == init;
    }
  }

  /** `for key, value := range values { sum[key] = plus(sum[key], value) }`, in any order of the keys. */
  method Accumulate<V>(sum: map<string, V>, values: map<string, V>, zero: V, plus: (V, V) -> V)
    returns (r: map<string, V>)
    ensures r == Merge(sum, values, zero, plus)
  {
    r := sum;
    var todo := values.Keys;
    while todo != {}
      invariant todo <= values.Keys
      invariant r == Merge(sum, map k | k in values && k !in todo :: values[k], zero, plus)
    {
      var k :| k in todo;
      r := r[k := plus(if k in r then r[k] else zero, values[k])];
      todo := todo - {k};
    }
    assert (map k | k in values && k !in todo :: values[k]) == values;
  }

  /** `for key := range m { m[key] = f(m[key]) }`. */
  method Update<V>(m: map<string, V>, f: V -> V) returns (r: map<string, V>)
    ensures r == map k | k in m :: f(m[k])
  {
    r := m;
    var todo := m.Keys;
    while todo != {}
      invariant todo <= m.Keys
      invariant r == map k | k in m :: if k in todo then m[k] else f(m[k])
    {
      var k :| k in todo;
      r := r[k := f(r[k])];
      todo := todo - {k};
    }
  }

  // ---------------------------------------------------------------- ragged slices

  function Item(xs: seq<nat>, k: nat): nat { if k < |xs| then xs[k] else 0 }

  function RaggedPlus(sums: seq<nat>, xs: seq<nat>): seq<nat> {
    seq(Max(|sums|, |xs|), k requires 0 <= k => Item(sums, k) + Item(xs, k))
  }

  function RaggedTotal(xss: seq<seq<nat>>): seq<nat> {
    if xss == [] then [] else RaggedPlus(RaggedTotal(xss[..|xss| - 1]), xss[|xss| - 1])
  }

  function Items(xss: seq<seq<nat>>, k: nat): seq<nat> {
    seq(|xss|, i requires 0 <= i < |xss| => Item(xss[i], k))
  }

  function Lengths(xss: seq<seq<nat>>): seq<nat> {
    seq(|xss|, i requires 0 <= i < |xss| => |xss[i]|)
  }

  /** The totals are as long as the longest slice, shorter slices counting as zero beyond their end. */
  lemma {:induction false} RaggedTotalIs(xss: seq<seq<nat>>, k: nat)
    ensures |RaggedTotal(xss)| == MaxOf(Lengths(xss))
    ensures Item(RaggedTotal(xss), k) == SumOf(Items(xss, k))
  {
    if xss == [] {
      assert Lengths(xss) == [] && Items(xss, k) == [];
    } else {
      var init := xss[..|xss| - 1];
      RaggedTotalIs(init, k);
      assert Lengths(xss)[..|init|] == Lengths(init);
      assert Items(xss, k)[..|init|] == Items(init, k);
    }
  }

  /** Extends the running sums with zeros where a record has more entries, then adds it. */
  method AddRagged(sums: seq<nat>, xs: seq<nat>) returns (r: seq<nat>)
    ensures r == RaggedPlus(sums, xs)
  {
    r := sums;
    if |r| < |xs| {
      r := r + seq(|xs| - |r|, _ => 0);
    }
    for j := 0 to |xs|
      invariant |r| == Max(|sums|, |xs|)
      invariant forall k | 0 <= k < |r| :: r[k] == if k < j then Item(sums, k) + xs[k] else Item(sums, k)
    {
      r := r[j := r[j] + xs[j]];
    }
  }

  // ---------------------------------------------------------------- accumulators per kind of map

  function PlusInt(a: int, b: int): int { a + b }

  function PlusNic(a: Nic, b: Nic): Nic {
    Nic((a.up + b.up) % WORD, (a.down + b.down) % WORD, Max(a.totalUp, b.totalUp), Max(a.totalDown, b.totalDown))
  }

  function PlusFs(a: FsBlock, b: FsBlock): FsBlock { Add(a, b) }

  const NO_NIC := Nic(0, 0, 0, 0)
  const NO_FS: FsBlock := Zero(2, 8, 2)

  function Given<V>(o: Option<map<string, V>>): map<string, V> {
    if o.Some? then o.value else map[]
  }

  function Mains(rs: seq<Stats>): seq<Block> { seq(|rs|, i requires 0 <= i < |rs| => rs[i].main) }
  function Batteries(rs: seq<Stats>): seq<nat> { seq(|rs|, i requires 0 <= i < |rs| => rs[i].battery) }
  function Breakdowns(rs: seq<Stats>): seq<seq<nat>> { seq(|rs|, i requires 0 <= i < |rs| => rs[i].breakdown) }
  function Cores(rs: seq<Stats>): seq<seq<nat>> { seq(|rs|, i requires 0 <= i < |rs| => Widen(rs[i].cores)) }
  function Widen(xs: seq<Byte>): seq<nat> { seq(|xs|, i requires 0 <= i < |xs| => xs[i]) }
  function Temperatures(rs: seq<Stats>): seq<map<string, int>> {
    seq(|rs|, i requires 0 <= i < |rs| => Given(rs[i].temperatures))
  }
  function Nics(rs: seq<Stats>): seq<map<string, Nic>> { seq(|rs|, i requires 0 <= i < |rs| => rs[i].nics) }
  function Filesystems(rs: seq<Stats>): seq<map<string, FsBlock>> {
    seq(|rs|, i requires 0 <= i < |rs| => Given(rs[i].extraFs))
  }
  function WithTemperatures(rs: seq<Stats>): nat {
    if rs == [] then 0
    else WithTemperatures(rs[..|rs| - 1]) + if rs[|rs| - 1].temperatures.Some? then 1 else 0
  }

  // ---------------------------------------------------------------- the averaging loop

  function DivideNic(a: Nic, n: nat): Nic
    requires n > 0
  {
    Nic(a.up / n, a.down / n, a.totalUp, a.totalDown)
  }

  /** The running totals after the given records. */
  datatype Sums = Sums(
    main: SystemBlock, battery: nat, charge: Byte, breakdown: seq<nat>, cores: seq<nat>,
    temperatures: map<string, int>, measured: nat, nics: map<string, Nic>, extraFs: map<string, FsBlock>)

  ghost predicate Summed(rs: seq<Stats>, s: Sums) {
    && s.main == (if rs == [] then Empty.main else Total(Mains(rs)))
    && s.battery == SumOf(Batteries(rs))
    && s.charge == (if rs == [] then 0 else rs[|rs| - 1].charge)
    && s.breakdown == RaggedTotal(Breakdowns(rs))
    && s.cores == RaggedTotal(Cores(rs))
    && s.temperatures == MergeAll(Temperatures(rs), 0, PlusInt)
    && s.measured == WithTemperatures(rs)
    && s.nics == MergeAll(Nics(rs), NO_NIC, PlusNic)
    && s.extraFs == MergeAll(Filesystems(rs), NO_FS, PlusFs)
  }

  method AddStats(s: Sums, stats: Stats, ghost rs: seq<Stats>) returns (r: Sums)
    requires Summed(rs, s)
    ensures Summed(rs + [stats], r)
  {
    var main := Add(s.main, stats.main);
    var breakdown := AddRagged(s.breakdown, stats.breakdown);
    var cores := AddRagged(s.cores, Widen(stats.cores));
    var nics := Accumulate(s.nics, stats.nics, NO_NIC, PlusNic);
    var temperatures, measured := s.temperatures, s.measured;
    if stats.temperatures.Some? {
      measured := measured + 1;
      temperatures := Accumulate(s.temperatures, stats.temperatures.value, 0, PlusInt);
    }
    var extraFs := s.extraFs;
    if stats.extraFs.Some? {
      extraFs := Accumulate(s.extraFs, stats.extraFs.value, NO_FS, PlusFs);
    }
    MergeNothing(s.temperatures, 0, PlusInt);
    MergeNothing(s.extraFs, NO_FS, PlusFs);
    r := Sums(main, s.battery + stats.battery, stats.charge, breakdown, cores, temperatures, measured, nics, extraFs);
    SummedOneMore(rs, s, stats, r);
  }

  lemma MergeNothing<V>(m: map<string, V>, zero: V, plus: (V, V) -> V)
    ensures Merge(m, map[], zero, plus) == m
  {}

  lemma SummedOneMore(rs: seq<Stats>, s: Sums, stats: Stats, r: Sums)
    requires Summed(rs, s)
    requires r.main == Add(s.main, stats.main) && r.battery == s.battery + stats.battery && r.charge == stats.charge
    requires r.breakdown == RaggedPlus(s.breakdown, stats.breakdown)
    requires r.cores == RaggedPlus(s.cores, Widen(stats.cores))
    requires r.temperatures == Merge(s.temperatures, Given(stats.temperatures), 0, PlusInt)
    requires r.measured == s.measured + if stats.temperatures.Some? then 1 else 0
    requires r.nics == Merge(s.nics, stats.nics, NO_NIC, PlusNic)
    requires r.extraFs == Merge(s.extraFs, Given(stats.extraFs), NO_FS, PlusFs)
    ensures Summed(rs + [stats], r)
  {
    var all := rs + [stats];
    assert all[..|all| - 1] == rs;
    ScalarsOneMore(rs, stats);
    ListsOneMore(rs, stats);
    MapsOneMore(rs, stats);
    hide Add, Merge, RaggedPlus, Given, Widen, PlusNic, PlusFs, MergeAll, RaggedTotal, SumOf, Total, Mains,
      Batteries, Breakdowns,
      Cores, Temperatures, Nics, Filesystems;
  }

  lemma ScalarsOneMore(rs: seq<Stats>, stats: Stats)
    ensures Total(Mains(rs + [stats])) == Add(if rs == [] then Empty.main else Total(Mains(rs)), stats.main)
    ensures SumOf(Batteries(rs + [stats])) == SumOf(Batteries(rs)) + stats.battery
  {
    assert Mains(rs + [stats])[..|rs|] == Mains(rs);
    assert Batteries(rs + [stats])[..|rs|] == Batteries(rs);
    hide Add;
  }

  lemma ListsOneMore(rs: seq<Stats>, stats: Stats)
    ensures RaggedTotal(Breakdowns(rs + [stats])) == RaggedPlus(RaggedTotal(Breakdowns(rs)), stats.breakdown)
    ensures RaggedTotal(Cores(rs + [stats])) == RaggedPlus(RaggedTotal(Cores(rs)), Widen(stats.cores))
  {
    assert Breakdowns(rs + [stats])[..|rs|] == Breakdowns(rs);
    assert Cores(rs + [stats])[..|rs|] == Cores(rs);
    hide RaggedPlus, Widen;
  }

  lemma MapsOneMore(rs: seq<Stats>, stats: Stats)
    ensures MergeAll(Temperatures(rs + [stats]), 0, PlusInt)
            == Merge(MergeAll(Temperatures(rs), 0, PlusInt), Given(stats.temperatures), 0, PlusInt)
    ensures MergeAll(Nics(rs + [stats]), NO_NIC, PlusNic)
            == Merge(MergeAll(Nics(rs), NO_NIC, PlusNic), stats.nics, NO_NIC, PlusNic)
    ensures MergeAll(Filesystems(rs + [stats]), NO_FS, PlusFs)
            == Merge(MergeAll(Filesystems(rs), NO_FS, PlusFs), Given(stats.extraFs), NO_FS, PlusFs)
  {
    assert Temperatures(rs + [stats])[..|rs|] == Temperatures(rs);
    assert Nics(rs + [stats])[..|rs|] == Nics(rs);
    assert Filesystems(rs + [stats])[..|rs|] == Filesystems(rs);
    hide Merge, Given;
  }

  /** The average of the records, each field over all of them; temperatures only over the records that
      have any. */
  ghost predicate Averaged(rs: seq<Stats>, avg: Stats)
    requires rs != []
  {
    var n := |rs|;
    && avg.main == Average(Mains(rs))
    && avg.battery == SumOf(Batteries(rs)) / n
    && avg.charge == rs[n - 1].charge
    && RaggedAverage(avg.breakdown, RaggedTotal(Breakdowns(rs)), n)
    && RaggedAverage(Widen(avg.cores), RaggedTotal(Cores(rs)), n)
    && TemperaturesAveraged(MergeAll(Temperatures(rs), 0, PlusInt), WithTemperatures(rs), avg.temperatures)
    && avg.nics == NicsDivided(MergeAll(Nics(rs), NO_NIC, PlusNic), n)
    && Given(avg.extraFs) == FsDivided(MergeAll(Filesystems(rs), NO_FS, PlusFs), n)
  }

  ghost predicate TemperaturesAveraged(sums: map<string, int>, measured: nat, avg: Option<map<string, int>>) {
    if measured == 0 then avg == None
    else avg == Some(map k | k in sums :: Rounded(sums[k], measured))
  }

  ghost function NicsDivided(sums: map<string, Nic>, n: nat): map<string, Nic>
    requires n > 0
  {
    map k | k in sums :: DivideNic(sums[k], n)
  }

  ghost function FsDivided(sums: map<string, FsBlock>, n: nat): map<string, FsBlock>
    requires n > 0
  {
    map k | k in sums :: DivideFs(sums[k], n)
  }

  ghost predicate RaggedAverage(avg: seq<nat>, total: seq<nat>, n: nat)
    requires n > 0
  {
    |avg| == |total| && forall k | 0 <= k < |avg| :: avg[k] == RoundedNat(total[k], n)
  }

  /** Sums of bytes stay small enough for their rounded mean to be a byte. */
  lemma {:induction false} BytesAverage(xs: seq<nat>, n: nat)
    requires |xs| == n > 0 && forall i | 0 <= i < n :: xs[i] < 256
    ensures RoundedNat(SumOf(xs), n) < 256 && SumOf(xs) / n < 256
  {
    SumBounded(xs, 255);
    RoundedBelow(SumOf(xs), n, 255);
    DivBelow(SumOf(xs), n, 255);
  }

  lemma CoreTotalsAreBytes(rs: seq<Stats>, k: nat)
    requires rs != [] && k < |RaggedTotal(Cores(rs))|
    ensures RoundedNat(RaggedTotal(Cores(rs))[k], |rs|) < 256
  {
    RaggedTotalIs(Cores(rs), k);
    hide RaggedTotal;
    BytesAverage(Items(Cores(rs), k), |rs|);
  }

  method AverageSystemStatsSlice(records: seq<Stats>) returns (avg: Stats)
    ensures records == [] ==> avg == Empty
    ensures records != [] ==> Averaged(records, avg)
  {
    if records == [] {
      return Empty;
    }
    var s := Sums(Empty.main, 0, 0, [], [], map[], 0, map[], map[]);
    var anyFs := false;
    assert Mains([]) == [] && Batteries([]) == [];
    for i := 0 to |records|
      invariant Summed(records[..i], s)
      invariant !anyFs ==> s.extraFs == map[]
    {
      assert records[..i + 1] == records[..i] + [records[i]];
      s := AddStats(s, records[i], records[..i]);
      if records[i].extraFs.Some? {
        anyFs := true;
      } else {
        NoFsNoChange(records[..i], records[i]);
      }
    }
    assert records[..|records|] == records;
    avg := Finish(s, anyFs, |records|, records);
  }

  lemma NoFsNoChange(rs: seq<Stats>, stats: Stats)
    requires stats.extraFs.None?
    ensures MergeAll(Filesystems(rs + [stats]), NO_FS, PlusFs) == MergeAll(Filesystems(rs), NO_FS, PlusFs)
  {
    assert Filesystems(rs + [stats])[..|rs|] == Filesystems(rs);
    MergeNothing(MergeAll(Filesystems(rs), NO_FS, PlusFs), NO_FS, PlusFs);
  }

  /** Turns the totals into averages. */
  method Finish(s: Sums, anyFs: bool, n: nat, ghost records: seq<Stats>) returns (avg: Stats)
    requires records != [] && n == |records| && Summed(records, s) && (!anyFs ==> s.extraFs == map[])
    ensures Averaged(records, avg)
  {
    hide Total, Divide, Add, SumOf, RaggedTotal, MergeAll, TemperaturesAveraged, NicsDivided, FsDivided,
      RaggedAverage, WithTemperatures, Widen;
    assert Mains(records) != [];
    var main := Divide(s.main, n);
    BatteriesAverage(records);
    var nics := FinishNics(s.nics, n);
    var fs := FinishFs(s.extraFs, n, anyFs);
    var temperatures := FinishTemperatures(s.temperatures, s.measured);
    var breakdown := RoundAll(s.breakdown, n);
    var cores := FinishCores(s.cores, n, records);
    avg := Stats(main, s.battery / n, s.charge, breakdown, cores, temperatures, nics, fs);
  }

  method FinishNics(sums: map<string, Nic>, n: nat) returns (r: map<string, Nic>)
    requires n > 0
    ensures r == NicsDivided(sums, n)
  {
    r := Update(sums, (a: Nic) => DivideNic(a, n));
  }

  method FinishFs(sums: map<string, FsBlock>, n: nat, anyFs: bool) returns (r: Option<map<string, FsBlock>>)
    requires n > 0 && (!anyFs ==> sums == map[])
    ensures Given(r) == FsDivided(sums, n)
  {
    if !anyFs {
      return None;
    }
    var fs := Update(sums, (b: FsBlock) => DivideFs(b, n));
    r := Some(fs);
  }

  method FinishTemperatures(sums: map<string, int>, measured: nat) returns (r: Option<map<string, int>>)
    ensures TemperaturesAveraged(sums, measured, r)
  {
    if measured == 0 {
      return None;
    }
    hide Rounded;
    var averaged := Update(sums, (v: int) => Rounded(v, measured));
    assert averaged == map k | k in sums :: Rounded(sums[k], measured);
    r := Some(averaged);
  }

  method FinishCores(sums: seq<nat>, n: nat, ghost records: seq<Stats>) returns (r: seq<Byte>)
    requires records != [] && n == |records| && sums == RaggedTotal(Cores(records))
    ensures RaggedAverage(Widen(r), sums, n)
  {
    forall k | 0 <= k < |sums| ensures RoundedNat(sums[k], n) < 256 { CoreTotalsAreBytes(records, k); }
    var cores := RoundAll(sums, n);
    r := seq(|cores|, i requires 0 <= i < |cores| && cores[i] < 256 => cores[i] as Byte);
    assert Widen(r) == cores;
  }

  function DivideFs(b: FsBlock, n: nat): FsBlock
    requires n > 0
  {
    Divide(b, n)
  }

  lemma BatteriesAverage(rs: seq<Stats>)
    requires rs != []
    ensures SumOf(Batteries(rs)) / |rs| < 256
  {
    BytesAverage(Batteries(rs), |rs|);
  }

  method RoundAll(sums: seq<nat>, n: nat) returns (avg: seq<nat>)
    requires n > 0
    ensures RaggedAverage(avg, sums, n)
  {
    avg := [];
    for i := 0 to |sums|
      invariant |avg| == i && forall k | 0 <= k < i :: avg[k] == RoundedNat(sums[k], n)
    {
      avg := avg + [RoundedNat(sums[i], n)];
    }
  }

  // ---------------------------------------------------------------- what the averages are

  /** Scalars: every gauge is the rounded mean of its column, every byte rate the truncated mean, every peak
      the maximum over current values and earlier peaks; the charge state is the last one. */
  lemma {:induction false} ScalarsAverage(rs: seq<Stats>, avg: Stats, f: Field)
    requires rs != [] && Averaged(rs, avg) && Has(Empty.main, f)
    ensures At(avg.main, f) == Peak(Mean(Now(Mains(rs), f), f), if f.Plain? then 0 else MaxOf(Tops(Mains(rs), f)))
    ensures avg.battery == SumOf(Batteries(rs)) / |rs| <= MaxOf(Batteries(rs)) && avg.charge == rs[|rs| - 1].charge
  {
    hide RaggedAverage, TemperaturesAveraged, NicsDivided, FsDivided;
    AverageColumn(Mains(rs), f);
    var xs := Batteries(rs);
    MaxOfIsMax(xs);
    SumBounded(xs, MaxOf(xs));
    DivBelow(SumOf(xs), |xs|, MaxOf(xs));
  }

  /** Per-core usage: one entry per core of the record with the most cores, each the rounded mean with
      missing cores counted as zero; the conversion to a byte never loses anything. */
  lemma {:induction false} CoresAverage(rs: seq<Stats>, avg: Stats)
    requires rs != [] && Averaged(rs, avg)
    ensures |avg.cores| == MaxOf(Lengths(Cores(rs)))
    ensures forall k | 0 <= k < |avg.cores| :: avg.cores[k] == RoundedNat(SumOf(Items(Cores(rs), k)), |rs|) < 256
  {
    RaggedTotalIs(Cores(rs), 0);
    forall k | 0 <= k < |avg.cores|
      ensures avg.cores[k] == RoundedNat(SumOf(Items(Cores(rs), k)), |rs|) < 256
    {
      RaggedTotalIs(Cores(rs), k);
      assert Widen(avg.cores)[k] == avg.cores[k];
    }
  }

  /** The CPU time breakdown likewise: as long as the longest, each entry the rounded mean over all records. */
  lemma {:induction false} BreakdownAverage(rs: seq<Stats>, avg: Stats)
    requires rs != [] && Averaged(rs, avg)
    ensures |avg.breakdown| == MaxOf(Lengths(Breakdowns(rs)))
    ensures forall k | 0 <= k < |avg.breakdown| :: avg.breakdown[k] == RoundedNat(SumOf(Items(Breakdowns(rs), k)), |rs|)
  {
    hide TemperaturesAveraged, NicsDivided, FsDivided, Average, RaggedTotal;
    RaggedTotalIs(Breakdowns(rs), 0);
    forall k | 0 <= k < |avg.breakdown|
      ensures avg.breakdown[k] == RoundedNat(SumOf(Items(Breakdowns(rs), k)), |rs|)
    {
      RaggedTotalIs(Breakdowns(rs), k);
    }
  }

  function Ups(xs: seq<Nic>): seq<nat> { seq(|xs|, i requires 0 <= i < |xs| => xs[i].up) }
  function TotalUps(xs: seq<Nic>): seq<nat> { seq(|xs|, i requires 0 <= i < |xs| => xs[i].totalUp) }
  function Downs(xs: seq<Nic>): seq<nat> { seq(|xs|, i requires 0 <= i < |xs| => xs[i].down) }
  function TotalDowns(xs: seq<Nic>): seq<nat> { seq(|xs|, i requires 0 <= i < |xs| => xs[i].totalDown) }

  lemma {:induction false} FoldNics(xs: seq<Nic>)
    ensures
      Fold(xs, NO_NIC, PlusNic)
      == Nic(SumOf(Ups(xs)) % WORD, SumOf(Downs(xs)) % WORD, MaxOf(TotalUps(xs)), MaxOf(TotalDowns(xs)))
  {
    if xs == [] {
      assert Ups(xs) == [] && Downs(xs) == [] && TotalUps(xs) == [] && TotalDowns(xs) == [];
    } else {
      var n := |xs| - 1;
      FoldNics(xs[..n]);
      assert Ups(xs)[..n] == Ups(xs[..n]) && Downs(xs)[..n] == Downs(xs[..n]);
      assert TotalUps(xs)[..n] == TotalUps(xs[..n]) && TotalDowns(xs)[..n] == TotalDowns(xs[..n]);
      WrapTwice(SumOf(Ups(xs[..n])), xs[n].up);
      WrapTwice(SumOf(Downs(xs[..n])), xs[n].down);
    }
  }

  /** Interfaces: one entry per interface seen in any record; rates are truncated means over all the
      records, running totals are maxima. */
  lemma {:induction false} NicsAverage(rs: seq<Stats>, avg: Stats, k: string)
    requires rs != [] && Averaged(rs, avg)
    ensures k in avg.nics <==> exists i :: 0 <= i < |rs| && k in rs[i].nics
    ensures k in avg.nics ==> avg.nics[k] == NicMean(Column(Nics(rs), k, NO_NIC))
  {
    var ms := Nics(rs);
    NicTotals(ms, k);
    hide Total, Divide, SumOf, MaxOf, Fold, MergeAll, Ups, Downs, TotalUps, TotalDowns, Summed;
    assert forall i | 0 <= i < |rs| :: ms[i] == rs[i].nics;
  }

  /** Truncated means of the rates, maxima of the running totals. */
  function NicMean(c: seq<Nic>): Nic
    requires c != []
  {
    Nic((SumOf(Ups(c)) % WORD) / |c|, (SumOf(Downs(c)) % WORD) / |c|, MaxOf(TotalUps(c)), MaxOf(TotalDowns(c)))
  }

  lemma NicTotals(ms: seq<map<string, Nic>>, k: string)
    ensures
      var c := Column(ms, k, NO_NIC);
      Get(MergeAll(ms, NO_NIC, PlusNic), k, NO_NIC)
      == Nic(SumOf(Ups(c)) % WORD, SumOf(Downs(c)) % WORD, MaxOf(TotalUps(c)), MaxOf(TotalDowns(c)))
    ensures k in MergeAll(ms, NO_NIC, PlusNic) <==> exists i :: 0 <= i < |ms| && k in ms[i]
  {
    hide SumOf, MaxOf, Fold, MergeAll, Column;
    forall j | 0 <= j <= |ms|
      ensures PlusNic(Fold(Column(ms[..j], k, NO_NIC), NO_NIC, PlusNic), NO_NIC)
              == Fold(Column(ms[..j], k, NO_NIC), NO_NIC, PlusNic)
    {
      FoldNics(Column(ms[..j], k, NO_NIC));
    }
    MergeAllAt(ms, NO_NIC, PlusNic, k);
    FoldNics(Column(ms, k, NO_NIC));
  }

  // ---------------------------------------------------------------- filesystems

  lemma {:induction false} FoldFs(xs: seq<FsBlock>, f: Field)
    requires Has(NO_FS, f)
    ensures At(Fold(xs, NO_FS, PlusFs), f).now == if f.Bytes? then SumOf(Now(xs, f)) % WORD else SumOf(Now(xs, f))
    ensures !f.Plain? ==> At(Fold(xs, NO_FS, PlusFs), f).max == MaxOf(Tops(xs, f))
  {
    if xs == [] {
      assert Now(xs, f) == [] && Tops(xs, f) == [];
    } else {
      var n := |xs| - 1;
      FoldFs(xs[..n], f);
      AddField(Fold(xs[..n], NO_FS, PlusFs), xs[n], f);
      FsColumnsConcat(xs, f);
      hide At, Add, Now, Tops, Has, Top;
      WrapTwice(SumOf(Now(xs[..n], f)), At(xs[n], f).now);
    }
  }

  lemma FsColumnsConcat(xs: seq<FsBlock>, f: Field)
    requires xs != []
    ensures
      var n := |xs| - 1;
      && Now(xs, f)[..n] == Now(xs[..n], f) && |Now(xs, f)| == |Tops(xs, f)| == n + 1
      && Now(xs, f)[n] == At(xs[n], f).now
      && Tops(xs, f)[..n] == Tops(xs[..n], f) && Tops(xs, f)[n] == Top(At(xs[n], f))
  {
    hide At, Top;
  }

  lemma {:induction false} FoldFsFits(xs: seq<FsBlock>)
    ensures PlusFs(Fold(xs, NO_FS, PlusFs), NO_FS) == Fold(xs, NO_FS, PlusFs)
  {
    var t := Fold(xs, NO_FS, PlusFs);
    forall k | 0 <= k < 2 ensures t.bytes[k].now < WORD { FoldFs(xs, Bytes(k)); }
    hide Fold;
    AddZero(t);
  }

  lemma AddZero(t: FsBlock)
    requires t.bytes[0].now < WORD && t.bytes[1].now < WORD
    ensures Add(t, NO_FS) == t
  {
    var u := Add(t, NO_FS);
    assert u.plain == t.plain;
    assert u.gauges == t.gauges;
    assert u.bytes == t.bytes;
  }

  /** Extra filesystems: one entry per filesystem seen in any record; the entry is the average of its blocks
      over all the records, a record without the filesystem counting as a block of zeros. */
  lemma {:induction false} FilesystemsAverage(rs: seq<Stats>, avg: Stats, k: string)
    requires rs != [] && Averaged(rs, avg)
    ensures k in Given(avg.extraFs) <==> exists i :: 0 <= i < |rs| && k in Given(rs[i].extraFs)
    ensures Get(Given(avg.extraFs), k, NO_FS) == Average(Column(Filesystems(rs), k, NO_FS))
  {
    var ms := Filesystems(rs);
    FsKeys(ms, k);
    ZeroDivided(|rs|);
    FsAverageIs(ms, k);
    hide MergeAll, Given, Average, DivideFs, Column, Total, RaggedAverage, TemperaturesAveraged, NicsDivided;
    assert forall i | 0 <= i < |rs| :: ms[i] == Given(rs[i].extraFs);
  }

  lemma FsAverageIs(ms: seq<map<string, FsBlock>>, k: string)
    requires ms != []
    ensures DivideFs(Get(MergeAll(ms, NO_FS, PlusFs), k, NO_FS), |ms|) == Average(Column(ms, k, NO_FS))
  {
    var t, c := Get(MergeAll(ms, NO_FS, PlusFs), k, NO_FS), Column(ms, k, NO_FS);
    hide MergeAll, Get, DivideFs, Average, At;
    forall f: Field | Has(NO_FS, f) ensures At(DivideFs(t, |ms|), f) == At(Average(c), f) {
      FsFieldIs(ms, k, f);
    }
    SameFields(DivideFs(t, |ms|), Average(c));
  }

  lemma FsFieldIs(ms: seq<map<string, FsBlock>>, k: string, f: Field)
    requires ms != [] && Has(NO_FS, f)
    ensures At(DivideFs(Get(MergeAll(ms, NO_FS, PlusFs), k, NO_FS), |ms|), f) == At(Average(Column(ms, k, NO_FS)), f)
  {
    var t, c := Get(MergeAll(ms, NO_FS, PlusFs), k, NO_FS), Column(ms, k, NO_FS);
    assert Uniform(c) && Has(c[0], f);
    hide MergeAll, Get, DivideFs, Average, At, Now, Tops, SumOf, MaxOf, RoundedNat, Has, Column, Uniform;
    FsTotals(ms, k, f);
    DividedField(t, |ms|, f);
    AverageColumn(c, f);
  }

  lemma ZeroDivided(n: nat)
    requires n > 0
    ensures DivideFs(NO_FS, n) == NO_FS
  {
    var z := DivideFs(NO_FS, n);
    ZeroRounded(n);
    assert z.plain == NO_FS.plain && z.gauges == NO_FS.gauges && z.bytes == NO_FS.bytes;
  }

  lemma ZeroRounded(n: nat)
    requires n > 0
    ensures RoundedNat(0, n) == 0 && 0 / n == 0
  {
    DivBelow(n, 2 * n, 0);
  }

  lemma SameFields(a: FsBlock, b: Block)
    requires SameShape(a, b) && forall f: Field | Has(NO_FS, f) :: At(a, f) == At(b, f)
    ensures a == b
  {
    forall i | 0 <= i < 2 ensures a.plain[i] == b.plain[i] && a.bytes[i] == b.bytes[i] {
      assert Has(NO_FS, Plain(i)) && Has(NO_FS, Bytes(i));
      assert At(a, Plain(i)) == At(b, Plain(i)) && At(a, Bytes(i)) == At(b, Bytes(i));
    }
    forall i | 0 <= i < 8 ensures a.gauges[i] == b.gauges[i] {
      assert Has(NO_FS, Gauge(i)) && At(a, Gauge(i)) == At(b, Gauge(i));
    }
  }

  lemma DividedField(t: FsBlock, n: nat, f: Field)
    requires n > 0 && Has(NO_FS, f)
    ensures At(DivideFs(t, n), f).now == if f.Bytes? then At(t, f).now / n else RoundedNat(At(t, f).now, n)
    ensures At(DivideFs(t, n), f).max == if f.Plain? then 0 else At(t, f).max
  {
    hide RoundedNat;
  }

  lemma FsKeys(ms: seq<map<string, FsBlock>>, k: string)
    ensures k in MergeAll(ms, NO_FS, PlusFs) <==> exists i :: 0 <= i < |ms| && k in ms[i]
    ensures Get(MergeAll(ms, NO_FS, PlusFs), k, NO_FS) == Fold(Column(ms, k, NO_FS), NO_FS, PlusFs)
  {
    hide Fold, MergeAll, Column;
    forall j | 0 <= j <= |ms|
      ensures PlusFs(Fold(Column(ms[..j], k, NO_FS), NO_FS, PlusFs), NO_FS)
              == Fold(Column(ms[..j], k, NO_FS), NO_FS, PlusFs)
    {
      FoldFsFits(Column(ms[..j], k, NO_FS));
    }
    MergeAllAt(ms, NO_FS, PlusFs, k);
  }

  lemma FsTotals(ms: seq<map<string, FsBlock>>, k: string, f: Field)
    requires Has(NO_FS, f)
    ensures
      var c, t := Column(ms, k, NO_FS), Get(MergeAll(ms, NO_FS, PlusFs), k, NO_FS);
      && At(t, f).now == (if f.Bytes? then SumOf(Now(c, f)) % WORD else SumOf(Now(c, f)))
      && (!f.Plain? ==> At(t, f).max == MaxOf(Tops(c, f)))
  {
    hide SumOf, MaxOf, Fold, MergeAll, Column, Has, At, Now, Tops;
    FsKeys(ms, k);
    FoldFs(Column(ms, k, NO_FS), f);
  }

  // ---------------------------------------------------------------- temperatures

  /** Sensors: one entry per sensor seen in any record. The readings of the records that lack it count as
      zero, but the mean is taken only over the records that carry temperatures at all. */
  lemma {:induction false} TemperaturesAverage(rs: seq<Stats>, avg: Stats, k: string)
    requires rs != [] && Averaged(rs, avg)
    ensures k in Given(avg.temperatures) <==> exists i :: 0 <= i < |rs| && k in Given(rs[i].temperatures)
    ensures k in Given(avg.temperatures) ==>
      && WithTemperatures(rs) > 0
      && Given(avg.temperatures)[k] == Rounded(Fold(Column(Temperatures(rs), k, 0), 0, PlusInt), WithTemperatures(rs))
  {
    var ms := Temperatures(rs);
    MergeAllAt(ms, 0, PlusInt, k);
    NoneMeasured(rs);
    hide Total, Fold, MergeAll, WithTemperatures, Rounded, Summed;
    assert forall i | 0 <= i < |rs| :: ms[i] == Given(rs[i].temperatures);
  }

  lemma {:induction false} NoneMeasured(rs: seq<Stats>)
    ensures WithTemperatures(rs) == 0 <==> forall i | 0 <= i < |rs| :: rs[i].temperatures.None?
    ensures WithTemperatures(rs) <= |rs|
  {
    if rs != [] {
      NoneMeasured(rs[..|rs| - 1]);
    }
  }
}
