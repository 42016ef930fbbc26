/** Network rates of containers, per cache interval. */
module DockerNetwork {
  import opened Words
  import opened DeltaTracking
  import Rates = NetworkRates
  import Laws = NetworkLaws

  const LIMIT: nat := 5_000_000_000   // bytes per second beyond which a delta counts as bad

  /** One network of a container. */
  datatype Link = Link(tx: Word, rx: Word)

  /** Per cache interval: trackers of sent and received totals by container, and when each was last read. */
  datatype Docker = Docker(sent: map<nat, Tracker>, recv: map<nat, Tracker>, lastRead: map<nat, map<string, nat>>)

  const NewDocker := Docker(map[], map[], map[])

  datatype Event =
    | Visit(ct: nat, id: string, now: nat, links: seq<Link>)   // a container's stats are read
    | EndCycle(ct: nat)                                        // all containers of a sample are done
    | Forget(id: string)                                       // a container seems to have restarted

  function TotalTx(links: seq<Link>): Word {
    if links == [] then 0 else (TotalTx(links[..|links| - 1]) + links[|links| - 1].tx) % WORD
  }

  function TotalRx(links: seq<Link>): Word {
    if links == [] then 0 else (TotalRx(links[..|links| - 1]) + links[|links| - 1].rx) % WORD
  }

  function TrackerIn(trackers: map<nat, Tracker>, ct: nat): Tracker {
    if ct in trackers then trackers[ct] else NewTracker
  }

  function CycledIn(trackers: map<nat, Tracker>, ct: nat): map<nat, Tracker> {
    if ct in trackers then trackers[ct := Cycled(trackers[ct])] else trackers
  }

  function Reads(lastRead: map<nat, map<string, nat>>, ct: nat): map<string, nat> {
    if ct in lastRead then lastRead[ct] else map[]
  }

  /** Milliseconds since the container was last read in this interval; 0 if it never was. */
  function Elapsed(times: map<string, nat>, id: string, now: nat): nat {
    if id in times && now >= times[id] then (now - times[id]) / Rates.MILLISECOND else 0
  }

  /** The rate of a delta; implausible ones are dropped. */
  function Plausible(delta: Word, ms: nat): nat {
    var rate := Rates.PerSecond(delta, ms);
    if rate > LIMIT then 0 else rate
  }

  datatype Speed = Speed(up: nat, down: nat)

  function Visited(d: Docker, ct: nat, id: string, now: nat, links: seq<Link>): (Docker, Speed) {
    var sent := WithValue(TrackerIn(d.sent, ct), id, TotalTx(links));
    var recv := WithValue(TrackerIn(d.recv, ct), id, TotalRx(links));
    var ms := Elapsed(Reads(d.lastRead, ct), id, now);
    (Docker(d.sent[ct := sent], d.recv[ct := recv], d.lastRead[ct := Reads(d.lastRead, ct)[id := now]]),
     Speed(Plausible(DeltaIn(sent, id), ms), Plausible(DeltaIn(recv, id), ms)))
  }

  function Forgotten(d: Docker, id: string): Docker {
    d.(lastRead := map ct | ct in d.lastRead :: d.lastRead[ct] - {id})
  }

  function Step(d: Docker, e: Event): Docker {
    match e
    case Visit(ct, id, now, links) => Visited(d, ct, id, now, links).0
    case EndCycle(ct) => d.(sent := CycledIn(d.sent, ct), recv := CycledIn(d.recv, ct))
    case Forget(id) => Forgotten(d, id)
  }

  // ---------------------------------------------------------------- one reading

  /** A counter that went down by d reports 0 if and only if -1000 d, as a 64-bit word, is implausible
      over the elapsed time, or less than one byte per second. */
  lemma DropReportsZeroIff(before: Word, now: Word, ms: nat)
    requires now < before && ms > 0
    ensures
      var w := (-1000 * (before - now)) % WORD;
      Plausible(Minus(now, before), ms) == 0 <==> w >= (LIMIT + 1) * ms || w < ms
  {
    var w := (-1000 * (before - now)) % WORD;
    ModNegative(before - now);
    ModShift(-1000 * (before - now), 1000);
    assert (WORD - (before - now)) * 1000 == -1000 * (before - now) + 1000 * WORD;
    assert Rates.PerSecond(Minus(now, before), ms) == w / ms;
    Laws.QuotientAbove(w, ms, LIMIT);
    Laws.QuotientAbove(w, ms, 0);
  }

  /** Without a drop or an overflow the exact rate is reported, rounded down, unless it is implausible. */
  lemma RiseReportsExactly(before: Word, now: Word, ms: nat)
    requires before <= now && ms > 0 && 1000 * (now - before) < WORD
    ensures
      var rate := 1000 * (now - before) / ms;
      Plausible(Minus(now, before), ms) == if rate > LIMIT then 0 else rate
  {
    Laws.RiseIsExact(before, now, ms);
  }

  lemma NothingPerSecond(ms: nat)
    ensures Rates.PerSecond(0, ms) == 0
  {
    SmallMod(0);
  }

  // ---------------------------------------------------------------- runs

  function After(d: Docker, es: seq<Event>): Docker {
    if es == [] then d else Step(After(d, es[..|es| - 1]), es[|es| - 1])
  }

  function SpeedsBy(d: Docker, e: Event, ct: nat): seq<Speed> {
    if e.Visit? && e.ct == ct then [Visited(d, ct, e.id, e.now, e.links).1] else []
  }

  /** The speeds reported for one interval, in order. */
  function Speeds(d: Docker, es: seq<Event>, ct: nat): seq<Speed> {
    if es == [] then []
    else Speeds(d, es[..|es| - 1], ct) + SpeedsBy(After(d, es[..|es| - 1]), es[|es| - 1], ct)
  }

  predicate Concerns(e: Event, ct: nat) { e.Forget? || e.ct == ct }

  function Only(es: seq<Event>, ct: nat): seq<Event> {
    if es == [] then []
    else Only(es[..|es| - 1], ct) + if Concerns(es[|es| - 1], ct) then [es[|es| - 1]] else []
  }

  predicate SameFor(ct: nat, a: Docker, b: Docker) {
    && (ct in a.sent <==> ct in b.sent) && (ct in a.recv <==> ct in b.recv)
    && TrackerIn(a.sent, ct) == TrackerIn(b.sent, ct)
    && TrackerIn(a.recv, ct) == TrackerIn(b.recv, ct)
    && Reads(a.lastRead, ct) == Reads(b.lastRead, ct)
  }

  lemma OthersLeaveIt(a: Docker, e: Event, ct: nat)
    requires !Concerns(e, ct)
    ensures SameFor(ct, a, Step(a, e))
  {
    hide TotalTx, TotalRx, Plausible;
  }

  lemma SameViewSameStep(a: Docker, b: Docker, e: Event, ct: nat)
    requires Concerns(e, ct) && SameFor(ct, a, b)
    ensures SpeedsBy(a, e, ct) == SpeedsBy(b, e, ct)
    ensures SameFor(ct, Step(a, e), Step(b, e))
  {
    hide TotalTx, TotalRx, Plausible;
  }

  lemma SameForJoin(ct: nat, a: Docker, b: Docker, c: Docker)
    requires SameFor(ct, a, b) && SameFor(ct, a, c)
    ensures SameFor(ct, c, b)
  {}

  /** The speeds of one interval depend only on its own readings and cycles, and on containers being
      forgotten, however those of other intervals come in between. */
  lemma {:induction false} IntervalsDoNotInterfere(d: Docker, es: seq<Event>, ct: nat)
    ensures Speeds(d, es, ct) == Speeds(d, Only(es, ct), ct)
    ensures SameFor(ct, After(d, es), After(d, Only(es, ct)))
  {
    if es != [] {
      var init, last := es[..|es| - 1], es[|es| - 1];
      var a, b := After(d, init), After(d, Only(init, ct));
      IntervalsDoNotInterfere(d, init, ct);
      assert Concerns(last, ct) ==> Only(es, ct)[..|Only(init, ct)|] == Only(init, ct);
      assert !Concerns(last, ct) ==> Only(es, ct) == Only(init, ct);
      assert !Concerns(last, ct) ==> SpeedsBy(a, last, ct) == [];
      hide SameFor, Only, Step, SpeedsBy, Concerns;
      if Concerns(last, ct) {
        SameViewSameStep(a, b, last, ct);
      } else {
        OthersLeaveIt(a, last, ct);
        SameForJoin(ct, a, b, After(d, es));
      }
    }
  }
}
