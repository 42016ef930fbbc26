/** The two jobs over the stats tables: rolling short records up into longer ones, and deleting old
    ones. Stated for any type of stats and any averaging function. */
module RollupJobs {

  import opened Wrappers

  datatype Collection = SystemStats | ContainerStats
  datatype RecordType = M1 | M10 | M20 | M120 | M480

  /** A row of one of the two stats collections; times are in seconds. */
  datatype Row<S> = Row(system: string, collection: Collection, kind: RecordType, created: int, stats: S)

  type Averager<!S> = (Collection, seq<S>) -> S

  const MINUTE := 60
  const HOUR := 60 * MINUTE

  /** One entry of the rollup table: what is averaged into what, over which window, and how many
      records it takes. */
  datatype Tier = Tier(shorter: RecordType, longer: RecordType, window: int, atLeast: nat)

  const TIERS: seq<Tier> := [
    Tier(M1, M10, 10 * MINUTE, 9),
    Tier(M10, M20, 20 * MINUTE, 2),
    Tier(M20, M120, 120 * MINUTE, 6),
    Tier(M120, M480, 480 * MINUTE, 4)]

  function Retention(kind: RecordType): int {
    match kind
    case M1 => HOUR
    case M10 => 12 * HOUR
    case M20 => 24 * HOUR
    case M120 => 7 * 24 * HOUR
    case M480 => 30 * 24 * HOUR
  }

  function Filter<T>(xs: seq<T>, p: T -> bool): seq<T> {
    if xs == [] then []
    else if p(xs[0]) then [xs[0]] + Filter(xs[1..], p)
    else Filter(xs[1..], p)
  }

  function Since<S>(system: string, collection: Collection, kind: RecordType, after: int): Row<S> -> bool {
    (r: Row<S>) => r.system == system && r.collection == collection && r.kind == kind && r.created > after
  }

  /** What the deletion job keeps at time `t`. */
  function Fresh<S>(t: int): Row<S> -> bool {
    (r: Row<S>) => r.created >= t - Retention(r.kind)
  }

  function Stats<S>(rows: seq<Row<S>>): seq<S> {
    seq(|rows|, i requires 0 <= i < |rows| => rows[i].stats)
  }

  /** A longer record exists already; 10m records are created on every run. The padding allows for
      longer records being created a little after the job started. */
  function Exists<S>(table: seq<Row<S>>, system: string, tier: Tier, collection: Collection, at: int): bool {
    tier.longer != M10 && |Filter(table, Since(system, collection, tier.longer, at - tier.window + MINUTE))| > 0
  }

  /** The longer record one pass of the inner loop creates, if any. */
  function Rolled<S>(average: Averager<S>, table: seq<Row<S>>, system: string, tier: Tier, collection: Collection,
                     at: int, created: int): Option<Row<S>>
  {
    var rows := Filter(table, Since(system, collection, tier.shorter, at - tier.window));
    if Exists(table, system, tier, collection, at) || |rows| < tier.atLeast then None
    else Some(Row(system, collection, tier.longer, created, average(collection, Stats(rows))))
  }

  // ---------------------------------------------------------------- runs

  /** `table` is what is stored, `made` the longer records created so far, `swept` the time of the
      latest cleanup. */
  datatype State<S> = State(table: seq<Row<S>>, made: seq<Row<S>>, swept: int)

  datatype Event<S> =
    | Sample(row: Row<S>)
    | RollUp(system: string, tier: Tier, collection: Collection, at: int, created: int)
    | Cleanup(at: int)

  function Step<S>(average: Averager<S>, s: State<S>, e: Event<S>): State<S> {
    match e
    case Sample(row) => s.(table := s.table + [row])
    case RollUp(system, tier, collection, at, created) =>
      (match Rolled(average, s.table, system, tier, collection, at, created)
       case None => s
       case Some(row) => s.(table := s.table + [row], made := s.made + [row]))
    case Cleanup(at) => s.(table := Filter(s.table, Fresh(at)), swept := at)
  }

  /** The clock does not run backwards past a cleanup, and records are saved after they were averaged. */
  predicate Timely<S>(s: State<S>, e: Event<S>) {
    match e
    case Sample(_) => true
    case RollUp(_, tier, _, at, created) => tier in TIERS && s.swept <= at <= created
    case Cleanup(at) => s.swept <= at
  }

  function Run<S>(average: Averager<S>, s: State<S>, es: seq<Event<S>>): State<S>
    decreases |es|
  {
    if es == [] then s else Run(average, Step(average, s, es[0]), es[1..])
  }

  predicate Legal<S>(average: Averager<S>, s: State<S>, es: seq<Event<S>>)
    decreases |es|
  {
    es == [] || (Timely(s, es[0]) && Legal(average, Step(average, s, es[0]), es[1..]))
  }

  function WithoutCleanups<S>(es: seq<Event<S>>): seq<Event<S>> {
    Filter(es, (e: Event<S>) => !e.Cleanup?)
  }

  // ---------------------------------------------------------------- filters

  lemma {:induction false} FilterFilter<T(!new)>(xs: seq<T>, p: T -> bool, q: T -> bool)
    requires forall x | x in xs && q(x) :: p(x)
    ensures Filter(Filter(xs, p), q) == Filter(xs, q)
  {
    if xs != [] {
      FilterFilter(xs[1..], p, q);
      if p(xs[0]) {
        assert ([xs[0]] + Filter(xs[1..], p))[1..] == Filter(xs[1..], p);
      }
    }
  }

  lemma {:induction false} FilterAppend<T>(xs: seq<T>, x: T, p: T -> bool)
    ensures Filter(xs + [x], p) == Filter(xs, p) + if p(x) then [x] else []
  {
    if xs == [] {
      assert [x][1..] == [];
    } else {
      FilterAppend(xs[1..], x, p);
      assert (xs + [x])[1..] == xs[1..] + [x];
    }
  }

  lemma {:induction false} FilterMembers<T>(xs: seq<T>, p: T -> bool)
    ensures forall x :: x in Filter(xs, p) <==> x in xs && p(x)
  {
    if xs != [] { FilterMembers(xs[1..], p); }
  }

  // ---------------------------------------------------------------- cleanup is invisible to rollup

  /** Both tables hold the same rows as far as a cleanup at `swept` or later is concerned. */
  ghost predicate SameFresh<S>(s: State<S>, t: State<S>, swept: int) {
    Filter(s.table, Fresh(swept)) == Filter(t.table, Fresh(swept)) && s.made == t.made
  }

  /** Every window the rollup job ever queries lies within the retention of the queried type. */
  lemma WindowsAreRetained<S(!new)>(system: string, tier: Tier, collection: Collection, at: int, swept: int)
    requires tier in TIERS && swept <= at
    ensures forall r: Row<S> | Since(system, collection, tier.shorter, at - tier.window)(r) :: Fresh(swept)(r)
    ensures forall r: Row<S> | Since(system, collection, tier.longer, at - tier.window + MINUTE)(r) :: Fresh(swept)(r)
  {}

  lemma SameRolled<S(!new)>(average: Averager<S>, s: State<S>, t: State<S>, swept: int,
                           system: string, tier: Tier, collection: Collection, at: int, created: int)
    requires SameFresh(s, t, swept) && tier in TIERS && swept <= at
    ensures Rolled(average, s.table, system, tier, collection, at, created)
         == Rolled(average, t.table, system, tier, collection, at, created)
  {
    WindowsAreRetained<S>(system, tier, collection, at, swept);
    var w1 := Since<S>(system, collection, tier.shorter, at - tier.window);
    var w2 := Since<S>(system, collection, tier.longer, at - tier.window + MINUTE);
    FilterFilter(s.table, Fresh(swept), w1);
    FilterFilter(t.table, Fresh(swept), w1);
    FilterFilter(s.table, Fresh(swept), w2);
    FilterFilter(t.table, Fresh(swept), w2);
  }

  /** `s` has seen the cleanups, `t` has not. */
  lemma StepKeepsSame<S(!new)>(average: Averager<S>, s: State<S>, t: State<S>, e: Event<S>)
    requires SameFresh(s, t, s.swept) && Timely(s, e)
    ensures
      var s' := Step(average, s, e);
      SameFresh(s', if e.Cleanup? then t else Step(average, t, e), s'.swept)
  {
    match e
    case Sample(row) =>
      FilterAppend(s.table, row, Fresh(s.swept));
      FilterAppend(t.table, row, Fresh(s.swept));
    case RollUp(system, tier, collection, at, created) =>
      SameRolled(average, s, t, s.swept, system, tier, collection, at, created);
      var r := Rolled(average, s.table, system, tier, collection, at, created);
      if r.Some? {
        FilterAppend(s.table, r.value, Fresh(s.swept));
        FilterAppend(t.table, r.value, Fresh(s.swept));
      }
    case Cleanup(at) =>
      FilterFilter(s.table, Fresh(at), Fresh(at));
      FilterFilter(s.table, Fresh(s.swept), Fresh(at));
      FilterFilter(t.table, Fresh(s.swept), Fresh(at));
  }

  lemma {:induction false} SameRuns<S(!new)>(average: Averager<S>, s: State<S>, t: State<S>, es: seq<Event<S>>)
    requires SameFresh(s, t, s.swept) && Legal(average, s, es)
    ensures Run(average, s, es).made == Run(average, t, WithoutCleanups(es)).made
    decreases |es|
  {
    if es != [] {
      StepKeepsSame(average, s, t, es[0]);
      var t' := if es[0].Cleanup? then t else Step(average, t, es[0]);
      SameRuns(average, Step(average, s, es[0]), t', es[1..]);
      assert WithoutCleanups(es) == (if es[0].Cleanup? then [] else [es[0]]) + WithoutCleanups(es[1..]);
      if !es[0].Cleanup? {
        assert WithoutCleanups(es)[1..] == WithoutCleanups(es[1..]);
      }
    }
  }

  /** Deleting old records never changes which longer records are created, nor their contents: a run
      with cleanups makes the same longer records as the run without them. */
  lemma CleanupIsInvisible<S(!new)>(average: Averager<S>, s: State<S>, es: seq<Event<S>>)
    requires Legal(average, s, es)
    ensures Run(average, s, es).made == Run(average, s, WithoutCleanups(es)).made
  {
    SameRuns(average, s, s, es);
  }

  // ---------------------------------------------------------------- spacing

  function Period(kind: RecordType): int {
    match kind
    case M20 => 20 * MINUTE
    case M120 => 120 * MINUTE
    case M480 => 480 * MINUTE
    case _ => 0
  }

  /** Made records are still stored unless a cleanup has outlived them. */
  ghost predicate Remembered<S>(s: State<S>) {
    forall r | r in s.made :: r in s.table || !Fresh(s.swept)(r)
  }

  /** Of one system and collection, records of the same longer type come no closer than their period
      less one minute; 10m records are exempt. */
  ghost predicate Spaced<S>(made: seq<Row<S>>) {
    forall i, j | 0 <= i < j < |made| && made[i].system == made[j].system
                  && made[i].collection == made[j].collection && made[i].kind == made[j].kind
                  && Period(made[j].kind) > 0 ::
      made[j].created >= made[i].created + Period(made[j].kind) - MINUTE
  }

  lemma StepKeepsSpaced<S(!new)>(average: Averager<S>, s: State<S>, e: Event<S>)
    requires Remembered(s) && Spaced(s.made) && Timely(s, e)
    ensures Remembered(Step(average, s, e)) && Spaced(Step(average, s, e).made)
  {
    match e
    case Sample(row) =>
    case Cleanup(at) => FilterMembers(s.table, Fresh(at));
    case RollUp(system, tier, collection, at, created) =>
      var r := Rolled(average, s.table, system, tier, collection, at, created);
      if r.Some? && tier.longer != M10 {
        var near := Since<S>(system, collection, tier.longer, at - tier.window + MINUTE);
        FilterMembers(s.table, near);
        forall x | x in s.made && x.system == system && x.collection == collection && x.kind == tier.longer
          ensures created >= x.created + tier.window - MINUTE
        {
          WindowsAreRetained<S>(system, tier, collection, at, s.swept);
          assert x in Filter(s.table, near) <==> x in s.table && near(x);
        }
      }
  }

  lemma {:induction false} RunKeepsSpaced<S(!new)>(average: Averager<S>, s: State<S>, es: seq<Event<S>>)
    requires Remembered(s) && Spaced(s.made) && Legal(average, s, es)
    ensures Spaced(Run(average, s, es).made)
    decreases |es|
  {
    if es != [] {
      StepKeepsSpaced(average, s, es[0]);
      RunKeepsSpaced(average, Step(average, s, es[0]), es[1..]);
    }
  }

  /** Over every run that starts with nothing made. */
  lemma LongerRecordsAreSpaced<S(!new)>(average: Averager<S>, table: seq<Row<S>>, swept: int, es: seq<Event<S>>)
    requires Legal(average, State(table, [], swept), es)
    ensures Spaced(Run(average, State(table, [], swept), es).made)
  {
    RunKeepsSpaced(average, State(table, [], swept), es);
  }

  // ---------------------------------------------------------------- the jobs as they run

  lemma {:induction false} RunAppend<S(!new)>(average: Averager<S>, s: State<S>, es: seq<Event<S>>, e: Event<S>)
    ensures Run(average, s, es + [e]) == Step(average, Run(average, s, es), e)
    ensures Legal(average, s, es + [e]) <==> Legal(average, s, es) && Timely(Run(average, s, es), e)
    decreases |es|
  {
    if es == [] {
      assert ([] + [e])[1..] == [];
    } else {
      RunAppend(average, Step(average, s, es[0]), es[1..], e);
      assert (es + [e])[1..] == es[1..] + [e];
    }
  }

  const COLLECTIONS: seq<Collection> := [SystemStats, ContainerStats]

  /** The passes over one tier of one system: both collections, with one reading of the clock for
      their windows. */
  ghost predicate TierPasses<S>(es: seq<Event<S>>, system: string, tier: Tier, from: int, to: int) {
    && |es| == 2
    && (forall c | 0 <= c < 2 ::
          && es[c].RollUp? && es[c].system == system && es[c].tier == tier && es[c].collection == COLLECTIONS[c]
          && from <= es[c].at <= es[c].created <= to)
    && es[0].at == es[1].at
  }

  /** The passes over one system: its tiers from the shortest to the longest. */
  ghost predicate SystemPasses<S>(es: seq<Event<S>>, system: string, from: int, to: int) {
    |es| == 8 && forall j | 0 <= j < 4 :: TierPasses(es[2 * j..2 * j + 2], system, TIERS[j], from, to)
  }

  ghost predicate JobPasses<S>(es: seq<Event<S>>, systems: seq<string>, from: int, to: int) {
    |es| == 8 * |systems| && forall i | 0 <= i < |systems| :: SystemPasses(es[8 * i..8 * i + 8], systems[i], from, to)
  }

  lemma {:induction false} RunConcat<S(!new)>(average: Averager<S>, s: State<S>, es: seq<Event<S>>, fs: seq<Event<S>>)
    requires Legal(average, s, es) && Legal(average, Run(average, s, es), fs)
    ensures Legal(average, s, es + fs) && Run(average, s, es + fs) == Run(average, Run(average, s, es), fs)
    decreases |es|
  {
    if es == [] {
      assert es + fs == fs;
    } else {
      RunConcat(average, Step(average, s, es[0]), es[1..], fs);
      assert (es + fs)[1..] == es[1..] + fs;
    }
  }

  class RecordManager<S(!new)> {
    const average: Averager<S>
    var table: seq<Row<S>>
    var clock: int
    ghost var made: seq<Row<S>>
    ghost var swept: int

    ghost function Now(): State<S>
      reads this
    {
      State(table, made, swept)
    }

    ghost predicate Valid()
      reads this
    {
      swept <= clock
    }

    constructor (average: Averager<S>, clock: int)
      ensures Valid() && this.average == average && Now() == State([], [], clock)
    {
      this.average := average;
      table, this.clock := [], clock;
      made, swept := [], clock;
    }

    /** Reads a clock that never runs backwards. */
    method Time() returns (t: int)
      modifies `clock
      ensures t == clock >= old(clock)
    {
      var passed: nat :| 0 <= passed;
      clock := clock + passed;
      t := clock;
    }

    /** The body of the innermost loop. */
    method RollUpOne(system: string, tier: Tier, collection: Collection, at: int) returns (ghost e: Event<S>)
      requires Valid() && tier in TIERS && swept <= at <= clock
      modifies this
      ensures Valid() && swept == old(swept) && clock >= old(clock)
      ensures e.RollUp? && e.system == system && e.tier == tier && e.collection == collection
      ensures e.at == at && old(clock) <= e.created <= clock
      ensures Timely(old(Now()), e) && Now() == Step(average, old(Now()), e)
    {
      if tier.longer != M10 {
        var longer := Filter(table, Since(system, collection, tier.longer, at - tier.window + MINUTE));
        if |longer| > 0 {
          e := RollUp(system, tier, collection, at, clock);
          return;
        }
      }
      var records := Filter(table, Since(system, collection, tier.shorter, at - tier.window));
      if |records| < tier.atLeast {
        e := RollUp(system, tier, collection, at, clock);
        return;
      }
      var stats := average(collection, Stats(records));
      var created := Time();
      var longerRecord := Row(system, collection, tier.longer, created, stats);
      table := table + [longerRecord];
      made := made + [longerRecord];
      e := RollUp(system, tier, collection, at, created);
    }

    method RollUpTier(system: string, tier: Tier) returns (ghost es: seq<Event<S>>)
      requires Valid() && tier in TIERS
      modifies this
      ensures Valid() && clock >= old(clock) && TierPasses(es, system, tier, old(clock), clock)
      ensures Legal(average, old(Now()), es) && Now() == Run(average, old(Now()), es)
    {
      es := [];
      var at := Time();
      for c := 0 to 2
        invariant Valid() && old(clock) <= at <= clock && swept == old(swept) && |es| == c
        invariant forall k | 0 <= k < c ::
            && es[k].RollUp? && es[k].system == system && es[k].tier == tier && es[k].collection == COLLECTIONS[k]
            && es[k].at == at <= es[k].created <= clock
        invariant Legal(average, old(Now()), es) && Now() == Run(average, old(Now()), es)
      {
        ghost var e := RollUpOne(system, tier, COLLECTIONS[c], at);
        RunAppend(average, old(Now()), es, e);
        es := es + [e];
      }
    }

    method RollUpSystem(system: string) returns (ghost es: seq<Event<S>>)
      requires Valid()
      modifies this
      ensures Valid() && clock >= old(clock) && SystemPasses(es, system, old(clock), clock)
      ensures Legal(average, old(Now()), es) && Now() == Run(average, old(Now()), es)
    {
      es := [];
      for j := 0 to 4
        invariant Valid() && clock >= old(clock) && |es| == 2 * j
        invariant forall k | 0 <= k < j :: TierPasses(es[2 * k..2 * k + 2], system, TIERS[k], old(clock), clock)
        invariant Legal(average, old(Now()), es) && Now() == Run(average, old(Now()), es)
      {
        hide Run, Legal, TierPasses;
        ghost var before := clock;
        ghost var fs := RollUpTier(system, TIERS[j]);
        RunConcat(average, old(Now()), es, fs);
        OneTierMore(es, fs, j, system, old(clock), before, clock);
        es := es + fs;
      }
    }

    lemma OneTierMore(es: seq<Event<S>>, fs: seq<Event<S>>, j: nat, system: string, from: int, mid: int, to: int)
      requires j < 4 && |es| == 2 * j && from <= mid <= to
      requires forall k | 0 <= k < j :: TierPasses(es[2 * k..2 * k + 2], system, TIERS[k], from, mid)
      requires TierPasses(fs, system, TIERS[j], mid, to)
      ensures |es + fs| == 2 * j + 2
      ensures forall k | 0 <= k < j + 1 :: TierPasses((es + fs)[2 * k..2 * k + 2], system, TIERS[k], from, to)
    {
      forall k | 0 <= k < j ensures TierPasses((es + fs)[2 * k..2 * k + 2], system, TIERS[k], from, to) {
        Prefix(es, fs, 2 * k, 2 * k + 2);
        TierPassesWiden(es[2 * k..2 * k + 2], system, TIERS[k], from, mid, to);
      }
      assert (es + fs)[2 * j..2 * j + 2] == fs;
    }

    lemma Prefix(es: seq<Event<S>>, fs: seq<Event<S>>, i: nat, j: nat)
      requires i <= j <= |es|
      ensures (es + fs)[i..j] == es[i..j]
    {}

    lemma TierPassesWiden(es: seq<Event<S>>, system: string, tier: Tier, from: int, mid: int, to: int)
      requires TierPasses(es, system, tier, from, mid) && mid <= to
      ensures TierPasses(es, system, tier, from, to)
    {}

    /** Rolls up every system that is up. */
    method CreateLongerRecords(systems: seq<string>) returns (ghost es: seq<Event<S>>)
      requires Valid()
      modifies this
      ensures Valid() && JobPasses(es, systems, old(clock), clock)
      ensures Legal(average, old(Now()), es) && Now() == Run(average, old(Now()), es)
    {
      es := [];
      for i := 0 to |systems|
        invariant Valid() && clock >= old(clock) && |es| == 8 * i
        invariant forall k | 0 <= k < i :: SystemPasses(es[8 * k..8 * k + 8], systems[k], old(clock), clock)
        invariant Legal(average, old(Now()), es) && Now() == Run(average, old(Now()), es)
      {
        hide Run, Legal, SystemPasses;
        ghost var before := clock;
        ghost var fs := RollUpSystem(systems[i]);
        RunConcat(average, old(Now()), es, fs);
        OneSystemMore(es, fs, i, systems, old(clock), before, clock);
        es := es + fs;
      }
    }

    lemma OneSystemMore(
      es: seq<Event<S>>, fs: seq<Event<S>>, i: nat, systems: seq<string>, from: int, mid: int, to: int)
      requires i < |systems| && |es| == 8 * i && from <= mid <= to
      requires forall k | 0 <= k < i :: SystemPasses(es[8 * k..8 * k + 8], systems[k], from, mid)
      requires SystemPasses(fs, systems[i], mid, to)
      ensures |es + fs| == 8 * i + 8
      ensures forall k | 0 <= k < i + 1 :: SystemPasses((es + fs)[8 * k..8 * k + 8], systems[k], from, to)
    {
      SystemPassesWiden(fs, systems[i], from, mid, to, to);
      forall k | 0 <= k < i ensures SystemPasses((es + fs)[8 * k..8 * k + 8], systems[k], from, to) {
        Prefix(es, fs, 8 * k, 8 * k + 8);
        SystemPassesWiden(es[8 * k..8 * k + 8], systems[k], from, from, mid, to);
      }
      assert (es + fs)[8 * i..8 * i + 8] == fs;
      hide SystemPasses;
    }

    lemma SystemPassesWiden(es: seq<Event<S>>, system: string, lo: int, from: int, to: int, hi: int)
      requires SystemPasses(es, system, from, to) && lo <= from && to <= hi
      ensures SystemPasses(es, system, lo, hi)
    {}

    /** Deletes the expired rows of one collection after the other, each with one disjunction over the
        record types. */
    method DeleteOldRecords() returns (ghost e: Event<S>)
      requires Valid()
      modifies this
      ensures Valid() && e.Cleanup? && e.at == clock >= old(clock)
      ensures Timely(old(Now()), e) && Now() == Step(average, old(Now()), e)
    {
      var now := Time();
      ghost var before := table;
      KeepAll(before, Kept(now, []));
      for c := 0 to 2
        invariant Valid() && clock == now && made == old(made) && swept == old(swept)
        invariant table == Filter(before, Kept(now, COLLECTIONS[..c]))
      {
        var collection := COLLECTIONS[c];
        FilterTwice(before, Kept(now, COLLECTIONS[..c]), Kept(now, [collection]), Kept(now, COLLECTIONS[..c + 1]));
        table := Filter(table, Kept(now, [collection]));
      }
      forall r: Row<S> ensures Kept<S>(now, COLLECTIONS[..2])(r) <==> Fresh<S>(now)(r) {
        assert COLLECTIONS[..2] == COLLECTIONS && (r.collection == COLLECTIONS[0] || r.collection == COLLECTIONS[1]);
      }
      FilterAgrees(before, Kept(now, COLLECTIONS[..2]), Fresh(now));
      swept := now;
      e := Cleanup(now);
    }
  }

  /** The negation of the deletion condition, for the given collections only. */
  function Kept<S>(now: int, collections: seq<Collection>): Row<S> -> bool {
    (r: Row<S>) => r.collection !in collections || !(
        || (r.kind == M1 && r.created < now - HOUR)
        || (r.kind == M10 && r.created < now - 12 * HOUR)
        || (r.kind == M20 && r.created < now - 24 * HOUR)
        || (r.kind == M120 && r.created < now - 7 * 24 * HOUR)
        || (r.kind == M480 && r.created < now - 30 * 24 * HOUR))
  }

  lemma {:induction false} FilterTwice<T(!new)>(xs: seq<T>, p: T -> bool, q: T -> bool, both: T -> bool)
    requires forall x :: both(x) <==> p(x) && q(x)
    ensures Filter(Filter(xs, p), q) == Filter(xs, both)
  {
    if xs != [] {
      FilterTwice(xs[1..], p, q, both);
      if p(xs[0]) {
        assert ([xs[0]] + Filter(xs[1..], p))[1..] == Filter(xs[1..], p);
      }
    }
  }

  lemma {:induction false} KeepAll<T(!new)>(xs: seq<T>, p: T -> bool)
    requires forall x :: p(x)
    ensures Filter(xs, p) == xs
  {
    if xs != [] { KeepAll(xs[1..], p); }
  }

  lemma {:induction false} FilterAgrees<T(!new)>(xs: seq<T>, p: T -> bool, q: T -> bool)
    requires forall x :: p(x) <==> q(x)
    ensures Filter(xs, p) == Filter(xs, q)
  {
    if xs != [] { FilterAgrees(xs[1..], p, q); }
  }
}
