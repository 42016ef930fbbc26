/** What the two jobs over the stats tables do to their rows, told in fields and numbers. Times are in seconds. */
module RollupEffects {
  import opened Wrappers
  import opened RollupJobs

  /** The positions of a table that a query finds, in the order of the table. */
  ghost predicate Positions(ix: seq<nat>, n: nat, found: set<nat>) {
    && (forall j | 0 <= j < |ix| :: ix[j] < n)
    && (forall j, k | 0 <= j < k < |ix| :: ix[j] < ix[k])
    && (forall i: nat | i < n :: i in ix <==> i in found)
  }

  function Rows<T>(xs: seq<T>, ix: seq<nat>): seq<T>
    requires forall j | 0 <= j < |ix| :: ix[j] < |xs|
  {
    seq(|ix|, j requires 0 <= j < |ix| => xs[ix[j]])
  }

  lemma {:induction false} FilterPicks<T>(xs: seq<T>, p: T -> bool, ix: seq<nat>, found: set<nat>)
    requires Positions(ix, |xs|, found) && forall i: nat | i < |xs| :: i in found <==> p(xs[i])
    ensures Filter(xs, p) == Rows(xs, ix)
  {
    if xs == [] {
      assert ix == [];
    } else {
      var n := |xs| - 1;
      assert xs == xs[..n] + [xs[n]];
      FilterAppend(xs[..n], xs[n], p);
      if p(xs[n]) {
        assert n in ix;
        LastPosition(ix, n);
        var before := ix[..|ix| - 1];
        ShorterPositions(ix, n, found);
        FilterPicks(xs[..n], p, before, found);
        assert Rows(xs, ix) == Rows(xs[..n], before) + [xs[n]];
      } else {
        forall j | 0 <= j < |ix| ensures ix[j] < n { assert ix[j] in ix; }
        FilterPicks(xs[..n], p, ix, found);
      }
    }
  }

  lemma LastPosition(ix: seq<nat>, n: nat)
    requires n in ix && (forall j | 0 <= j < |ix| :: ix[j] <= n)
    requires forall j, k | 0 <= j < k < |ix| :: ix[j] < ix[k]
    ensures ix[|ix| - 1] == n
  {}

  lemma ShorterPositions(ix: seq<nat>, n: nat, found: set<nat>)
    requires Positions(ix, n + 1, found) && ix != [] && ix[|ix| - 1] == n
    ensures Positions(ix[..|ix| - 1], n, found)
  {
    var before := ix[..|ix| - 1];
    forall i: nat | i < n ensures i in before <==> i in ix {
      if i in ix {
        var j :| 0 <= j < |ix| && ix[j] == i;
        assert before[j] == i;
      }
    }
  }

  /** Every set of positions can be listed. */
  lemma {:induction false} PositionsExist(n: nat, found: set<nat>)
    ensures exists ix: seq<nat> :: Positions(ix, n, found)
  {
    if n == 0 {
      var none: seq<nat> := [];
      assert Positions(none, 0, found);
    } else {
      PositionsExist(n - 1, found);
      var ix: seq<nat> :| Positions(ix, n - 1, found);
      var all: seq<nat> := if n - 1 in found then ix + [n - 1] else ix;
      assert Positions(all, n, found);
    }
  }

  /** One pass of the rollup. The shorter records are those of the system and the collection from within the
      window; a longer record is made exactly if there are enough of them and, but for 10m records, no longer one
      is younger than the window less a minute. It averages the stats of exactly these records, each once and in
      their order, and nothing else changes. */
  lemma {:induction false} LongerRecordIsMade<S(!new)>(
    average: Averager<S>, s: State<S>, system: string, tier: Tier, collection: Collection, at: int, created: int,
    ix: seq<nat>)
    requires Positions(ix, |s.table|, set i: nat | i < |s.table| &&
      s.table[i].system == system && s.table[i].collection == collection && s.table[i].kind == tier.shorter
      && s.table[i].created > at - tier.window)
    ensures
      var due :=
        && |ix| >= tier.atLeast
        && (tier.longer == M10 || forall r | r in s.table && r.system == system && r.collection == collection
                                             && r.kind == tier.longer :: r.created <= at - tier.window + 60);
      var stats := seq(|ix|, j requires 0 <= j < |ix| => s.table[ix[j]].stats);
      var row := Row(system, collection, tier.longer, created, average(collection, stats));
      Step(average, s, RollUp(system, tier, collection, at, created)) ==
      if due then State(s.table + [row], s.made + [row], s.swept) else s
  {
    ShorterRows(s.table, system, tier.shorter, collection, at - tier.window, ix);
    LongerRows(s.table, system, tier.longer, collection, at - tier.window + 60);
    hide Filter, Since, Stats;
  }

  lemma {:induction false} ShorterRows<S(!new)>(
    table: seq<Row<S>>, system: string, kind: RecordType, collection: Collection, after: int, ix: seq<nat>)
    requires Positions(ix, |table|, set i: nat | i < |table| &&
      table[i].system == system && table[i].collection == collection && table[i].kind == kind
      && table[i].created > after)
    ensures Stats(Filter(table, Since(system, collection, kind, after)))
         == seq(|ix|, j requires 0 <= j < |ix| => table[ix[j]].stats)
    ensures |Filter(table, Since(system, collection, kind, after))| == |ix|
  {
    FilterPicks(table, Since(system, collection, kind, after), ix, set i: nat | i < |table| &&
      table[i].system == system && table[i].collection == collection && table[i].kind == kind
      && table[i].created > after);
    hide Filter;
  }

  lemma {:induction false} LongerRows<S(!new)>(
    table: seq<Row<S>>, system: string, kind: RecordType, collection: Collection, after: int)
    ensures |Filter(table, Since(system, collection, kind, after))| > 0 <==>
            !forall r | r in table && r.system == system && r.collection == collection && r.kind == kind ::
              r.created <= after
  {
    var rows := Filter(table, Since(system, collection, kind, after));
    FilterMembers(table, Since(system, collection, kind, after));
    hide Filter;
    assert |rows| > 0 <==> exists r :: r in rows by {
      assert |rows| > 0 ==> rows[0] in rows;
    }
  }

  /** Ten records of a minute become one of ten, from nine on; two of these one of twenty; six of these one of two
      hours; four of these one of eight hours. */
  lemma TiersAre()
    ensures |TIERS| == 4
    ensures TIERS[0] == Tier(M1, M10, 600, 9)
    ensures TIERS[1] == Tier(M10, M20, 1200, 2)
    ensures TIERS[2] == Tier(M20, M120, 7200, 6)
    ensures TIERS[3] == Tier(M120, M480, 28800, 4)
  {}

  /** The job visits every system, tier and collection within its time, and makes no other pass. */
  lemma {:induction false} EveryPassIsMade<S(!new)>(
    es: seq<Event<S>>, systems: seq<string>, from: int, to: int, i: nat, j: nat, collection: Collection)
    requires JobPasses(es, systems, from, to) && i < |systems| && j < 4
    ensures |es| == 8 * |systems|
    ensures exists at, created ::
      && RollUp(systems[i], TIERS[j], collection, at, created) in es
      && from <= at <= created <= to
  {
    var c := if collection == SystemStats then 0 else 1;
    var ofSystem := es[8 * i..8 * i + 8];
    assert SystemPasses(ofSystem, systems[i], from, to);
    var ofTier := ofSystem[2 * j..2 * j + 2];
    assert TierPasses(ofTier, systems[i], TIERS[j], from, to);
    var e := ofTier[c];
    assert e == es[8 * i + 2 * j + c];
    assert e == RollUp(systems[i], TIERS[j], collection, e.at, e.created);
  }

  /** A cleanup keeps exactly the rows that are not older than an hour, twelve hours, a day, a week or 30 days,
      depending on their type, each once and in their order. */
  lemma {:induction false} OldRowsGo<S(!new)>(average: Averager<S>, s: State<S>, at: int, ix: seq<nat>)
    requires Positions(ix, |s.table|, set i: nat | i < |s.table| && !(
      || (s.table[i].kind == M1 && s.table[i].created < at - 3600)
      || (s.table[i].kind == M10 && s.table[i].created < at - 43200)
      || (s.table[i].kind == M20 && s.table[i].created < at - 86400)
      || (s.table[i].kind == M120 && s.table[i].created < at - 604800)
      || (s.table[i].kind == M480 && s.table[i].created < at - 2592000)))
    ensures Step(average, s, Cleanup(at)) ==
            State(seq(|ix|, j requires 0 <= j < |ix| => s.table[ix[j]]), s.made, at)
  {
    var found := set i: nat | i < |s.table| && !(
      || (s.table[i].kind == M1 && s.table[i].created < at - 3600)
      || (s.table[i].kind == M10 && s.table[i].created < at - 43200)
      || (s.table[i].kind == M20 && s.table[i].created < at - 86400)
      || (s.table[i].kind == M120 && s.table[i].created < at - 604800)
      || (s.table[i].kind == M480 && s.table[i].created < at - 2592000));
    FilterPicks(s.table, Fresh(at), ix, found);
  }
}
