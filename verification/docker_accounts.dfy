/** The speeds of one container in one cache interval, followed through everything else that happens. */
module DockerAccounts {
  import opened Wrappers
  import opened Words
  import opened DeltaTracking
  import opened DockerNetwork
  import Rates = NetworkRates
  import Laws = NetworkLaws

  /** All that the state holds about one container in one interval. */
  datatype Known = Known(
    sentNow: Option<Word>, sentBefore: Option<Word>, recvNow: Option<Word>, recvBefore: Option<Word>, read: Option<nat>)

  function Cell<V>(m: map<string, V>, id: string): Option<V> {
    if id in m then Some(m[id]) else None
  }

  function KnownOf(d: Docker, ct: nat, id: string): Known {
    var (sent, recv) := (TrackerIn(d.sent, ct), TrackerIn(d.recv, ct));
    Known(Cell(sent.current, id), Cell(sent.previous, id), Cell(recv.current, id), Cell(recv.previous, id),
          Cell(Reads(d.lastRead, ct), id))
  }

  /** Not a reading of this container in this interval, nor the end of its cycle, nor forgetting it. */
  predicate Foreign(e: Event, ct: nat, id: string) {
    match e
    case Visit(c, i, _, _) => c != ct || i != id
    case EndCycle(c) => c != ct
    case Forget(i) => i != id
  }

  lemma ForeignKeeps(d: Docker, e: Event, ct: nat, id: string)
    requires Foreign(e, ct, id)
    ensures KnownOf(Step(d, e), ct, id) == KnownOf(d, ct, id)
  {
    hide TotalTx, TotalRx, Plausible;
  }

  lemma {:induction false} ForeignRunKeeps(d: Docker, es: seq<Event>, ct: nat, id: string)
    requires forall i | 0 <= i < |es| :: Foreign(es[i], ct, id)
    ensures KnownOf(After(d, es), ct, id) == KnownOf(d, ct, id)
  {
    if es != [] {
      hide KnownOf, Step;
      ForeignRunKeeps(d, es[..|es| - 1], ct, id);
      ForeignKeeps(After(d, es[..|es| - 1]), es[|es| - 1], ct, id);
    }
  }

  /** What a reading notes, and what it reports. */
  lemma VisitKnows(d: Docker, ct: nat, id: string, now: nat, links: seq<Link>)
    ensures
      var (k, (d', speed)) := (KnownOf(d, ct, id), Visited(d, ct, id, now, links));
      && KnownOf(d', ct, id) == Known(Some(TotalTx(links)), k.sentBefore, Some(TotalRx(links)), k.recvBefore, Some(now))
      && speed == Speed(Reported(k.sentBefore, k.read, TotalTx(links), now),
                        Reported(k.recvBefore, k.read, TotalRx(links), now))
  {
    hide TotalTx, TotalRx;
    NothingPerSecond(Elapsed(Reads(d.lastRead, ct), id, now));
  }

  /** The milliseconds since a container was read; none if it was not. */
  function Since(read: Option<nat>, now: nat): nat {
    if read.Some? && now >= read.value then (now - read.value) / Rates.MILLISECOND else 0
  }

  function Reported(before: Option<Word>, read: Option<nat>, value: Word, now: nat): nat {
    if before.Some? then Plausible(Minus(value, before.value), Since(read, now)) else 0
  }

  lemma CycleKnows(d: Docker, ct: nat, id: string)
    ensures
      var k := KnownOf(d, ct, id);
      KnownOf(Step(d, EndCycle(ct)), ct, id) == Known(None, k.sentNow, None, k.recvNow, k.read)
  {}

  lemma ForgetKnows(d: Docker, ct: nat, id: string)
    ensures KnownOf(Step(d, Forget(id)), ct, id) == KnownOf(d, ct, id).(read := None)
  {}

  lemma {:induction false} AfterConcat(d: Docker, es: seq<Event>, fs: seq<Event>)
    ensures After(d, es + fs) == After(After(d, es), fs)
  {
    if fs == [] {
      assert es + fs == es;
    } else {
      AfterConcat(d, es, fs[..|fs| - 1]);
      assert (es + fs)[..|es + fs| - 1] == es + fs[..|fs| - 1];
    }
  }

  predicate AllForeign(es: seq<Event>, ct: nat, id: string) {
    forall i | 0 <= i < |es| :: Foreign(es[i], ct, id)
  }

  /** A container read in consecutive cycles of one interval: the second reading reports exactly the growth
      since the first over the time since the first, whatever other containers are read in between, in
      this interval or in others, and whichever of them are forgotten. */
  lemma {:induction false} DeltaSpansOneCycle(
    d: Docker, ct: nat, id: string, first: Event, a: seq<Event>, b: seq<Event>, now: nat, links: seq<Link>)
    requires first.Visit? && first.ct == ct && first.id == id && now >= first.now
    requires AllForeign(a, ct, id) && AllForeign(b, ct, id)
    ensures
      var d' := After(Step(d, first), a + [EndCycle(ct)] + b);
      var (sent, recv) := (Minus(TotalTx(links), TotalTx(first.links)), Minus(TotalRx(links), TotalRx(first.links)));
      var ms := (now - first.now) / Rates.MILLISECOND;
      Visited(d', ct, id, now, links).1 == Speed(Plausible(sent, ms), Plausible(recv, ms))
  {
    var d1 := Step(d, first);
    assert d1 == Visited(d, ct, id, first.now, first.links).0;
    hide KnownOf, TotalTx, TotalRx, Plausible, Visited, Foreign, Step, After;
    VisitKnows(d, ct, id, first.now, first.links);
    CycleBetween(d1, ct, id, a, b);
    VisitKnows(After(d1, a + [EndCycle(ct)] + b), ct, id, now, links);
  }

  /** The end of one cycle among foreign events. */
  lemma CycleBetween(d: Docker, ct: nat, id: string, a: seq<Event>, b: seq<Event>)
    requires AllForeign(a, ct, id) && AllForeign(b, ct, id)
    ensures
      var k := KnownOf(d, ct, id);
      KnownOf(After(d, a + [EndCycle(ct)] + b), ct, id) == Known(None, k.sentNow, None, k.recvNow, k.read)
  {
    hide KnownOf, Step, Foreign;
    var d2 := After(d, a);
    assert After(d2, [EndCycle(ct)]) == Step(d2, EndCycle(ct)) by { assert [EndCycle(ct)][..0] == []; }
    hide After;
    ForeignRunKeeps(d, a, ct, id);
    AfterConcat(d, a, [EndCycle(ct)]);
    CycleKnows(d2, ct, id);
    AfterConcat(d, a + [EndCycle(ct)], b);
    ForeignRunKeeps(Step(d2, EndCycle(ct)), b, ct, id);
  }

  // ---------------------------------------------------------------- accounting over a run

  predicate ReadsIt(e: Event, ct: nat, id: string) { e.Visit? && e.ct == ct && e.id == id }

  function Total(links: seq<Link>, up: bool): Word { if up then TotalTx(links) else TotalRx(links) }

  function Before(k: Known, up: bool): Option<Word> { if up then k.sentBefore else k.recvBefore }

  function Latest(k: Known, up: bool): Option<Word> {
    var now := if up then k.sentNow else k.recvNow;
    if now.Some? then now else Before(k, up)
  }

  function SpeedOf(s: Speed, up: bool): nat { if up then s.up else s.down }

  /** Milli-bytes a reading reports: its speed times the elapsed milliseconds. */
  function AccountedBy(d: Docker, e: Event, up: bool): nat
    requires e.Visit?
  {
    SpeedOf(Visited(d, e.ct, e.id, e.now, e.links).1, up) * Since(KnownOf(d, e.ct, e.id).read, e.now)
  }

  function Accounted(d: Docker, es: seq<Event>, ct: nat, id: string, up: bool): nat {
    if es == [] then 0
    else
      var (init, last) := (es[..|es| - 1], es[|es| - 1]);
      Accounted(d, init, ct, id, up) + if ReadsIt(last, ct, id) then AccountedBy(After(d, init), last, up) else 0
  }

  /** A container is read once per cycle of the interval, and a total that dropped reports nothing (see
      DropReportsZeroIff). */
  predicate Regular(d: Docker, e: Event, up: bool)
    requires e.Visit?
  {
    var k := KnownOf(d, e.ct, e.id);
    && k.sentNow.None? && k.recvNow.None?
    && (Before(k, up).Some? && Total(e.links, up) < Before(k, up).value ==>
          SpeedOf(Visited(d, e.ct, e.id, e.now, e.links).1, up) == 0)
  }

  predicate AllRegular(d: Docker, es: seq<Event>, ct: nat, id: string, up: bool) {
    es == [] ||
    (var (init, last) := (es[..|es| - 1], es[|es| - 1]);
     AllRegular(d, init, ct, id, up) && (ReadsIt(last, ct, id) ==> Regular(After(d, init), last, up)))
  }

  /** The container's counter and true traffic at each event; readings show the counter. */
  predicate Shows(wires: seq<Laws.Wire>, es: seq<Event>, ct: nat, id: string, up: bool) {
    && |wires| == |es|
    && (forall i | 0 < i < |wires| :: Laws.Follows(wires[i - 1], wires[i]))
    && (forall i | 0 <= i < |es| && ReadsIt(es[i], ct, id) :: Total(es[i].links, up) == wires[i].counter)
  }

  predicate Remembers(d: Docker, ct: nat, id: string, up: bool, w: Laws.Wire) {
    var v := Latest(KnownOf(d, ct, id), up);
    v.Some? ==> v.value == w.counter
  }

  lemma StepRemembers(d: Docker, e: Event, ct: nat, id: string, up: bool, w: Laws.Wire, now: Laws.Wire)
    returns (w': Laws.Wire)
    requires Remembers(d, ct, id, up, w) && Laws.Follows(w, now)
    requires ReadsIt(e, ct, id) ==> Regular(d, e, up) && Total(e.links, up) == now.counter
    ensures Remembers(Step(d, e), ct, id, up, w') && Laws.Follows(w', now) && w'.bytes >= w.bytes
    ensures ReadsIt(e, ct, id) ==> AccountedBy(d, e, up) <= 1000 * (w'.bytes - w.bytes)
  {
    hide KnownOf, Visited, Plausible, TotalTx, TotalRx;
    w' := w;
    if ReadsIt(e, ct, id) {
      VisitKnows(d, ct, id, e.now, e.links);
      w' := now;
      var k := KnownOf(d, ct, id);
      if Before(k, up).Some? && Total(e.links, up) >= w.counter {
        SmallMod(now.counter - w.counter);
        PlausibleBelow(now.counter - w.counter, Since(k.read, e.now));
      }
    } else if e == EndCycle(ct) {
      CycleKnows(d, ct, id);
    } else if e == Forget(id) {
      ForgetKnows(d, ct, id);
    } else {
      ForeignKeeps(d, e, ct, id);
    }
  }

  lemma PlausibleBelow(delta: Word, ms: nat)
    ensures Plausible(delta, ms) * ms <= 1000 * delta
  {
    Laws.RateIsBelow(delta, ms);
    hide Rates.PerSecond;
    if Plausible(delta, ms) == 0 { assert 0 * ms == 0; }
  }

  lemma {:induction false} AccountedWithin(es: seq<Event>, wires: seq<Laws.Wire>, ct: nat, id: string, up: bool)
    returns (w: Laws.Wire)
    requires es != [] && Shows(wires, es, ct, id, up) && AllRegular(NewDocker, es, ct, id, up)
    ensures Remembers(After(NewDocker, es), ct, id, up, w)
    ensures Laws.Follows(w, wires[|wires| - 1]) && w.bytes >= wires[0].bytes
    ensures Accounted(NewDocker, es, ct, id, up) <= 1000 * (w.bytes - wires[0].bytes)
  {
    var n := |es| - 1;
    if n == 0 {
      assert es[..0] == [];
      w := StepRemembers(NewDocker, es[0], ct, id, up, wires[0], wires[0]);
    } else {
      var v := AccountedWithin(es[..n], wires[..n], ct, id, up);
      hide Remembers, Step, Regular, AccountedBy, Total;
      w := StepRemembers(After(NewDocker, es[..n]), es[n], ct, id, up, v, wires[n]);
    }
  }

  // ---------------------------------------------------------------- drops that are small enough

  /** A drop small enough for its wrapped rate to be implausible over the elapsed time. */
  predicate SmallDrop(before: Word, now: Word, ms: nat) {
    1000 * (before - now) + (LIMIT + 1) * ms <= WORD
  }

  lemma SmallDropReportsNothing(before: Word, now: Word, ms: nat)
    requires now < before && SmallDrop(before, now, ms)
    ensures Plausible(Minus(now, before), ms) == 0
  {
    if ms > 0 {
      ModNegative(1000 * (before - now));
      assert -1000 * (before - now) == -(1000 * (before - now));
      hide Plausible, Minus;
      DropReportsZeroIff(before, now, ms);
    }
  }

  /** A container is read once per cycle of the interval, and if its total dropped, as it does when the container
      restarts, it dropped by a small amount. */
  predicate Bounded(d: Docker, e: Event, up: bool)
    requires e.Visit?
  {
    var k := KnownOf(d, e.ct, e.id);
    && k.sentNow.None? && k.recvNow.None?
    && (Before(k, up).Some? && Total(e.links, up) < Before(k, up).value ==>
          SmallDrop(Before(k, up).value, Total(e.links, up), Since(k.read, e.now)))
  }

  predicate AllBounded(d: Docker, es: seq<Event>, ct: nat, id: string, up: bool) {
    es == [] ||
    (var (init, last) := (es[..|es| - 1], es[|es| - 1]);
     AllBounded(d, init, ct, id, up) && (ReadsIt(last, ct, id) ==> Bounded(After(d, init), last, up)))
  }

  lemma BoundedIsRegular(d: Docker, e: Event, up: bool)
    requires e.Visit? && Bounded(d, e, up)
    ensures Regular(d, e, up)
  {
    var k := KnownOf(d, e.ct, e.id);
    VisitKnows(d, e.ct, e.id, e.now, e.links);
    hide KnownOf, Visited, Plausible, TotalTx, TotalRx, Minus;
    if Before(k, up).Some? && Total(e.links, up) < Before(k, up).value {
      SmallDropReportsNothing(Before(k, up).value, Total(e.links, up), Since(k.read, e.now));
    }
  }

  lemma {:induction false} AllBoundedIsRegular(d: Docker, es: seq<Event>, ct: nat, id: string, up: bool)
    requires AllBounded(d, es, ct, id, up)
    ensures AllRegular(d, es, ct, id, up)
  {
    hide Bounded, Regular;
    if es != [] {
      AllBoundedIsRegular(d, es[..|es| - 1], ct, id, up);
      if ReadsIt(es[|es| - 1], ct, id) {
        BoundedIsRegular(After(d, es[..|es| - 1]), es[|es| - 1], up);
      }
    }
  }

  /** Over any run from the start of the agent, in which a container is read once per cycle of an interval and
      its totals drop, if they do, by small amounts, the speeds reported for it there amount to no more than
      the traffic, however readings of other containers and intervals come in between and however often it is
      missed, restarted or forgotten. */
  lemma {:induction false} ContainersNeverOverReported(
    es: seq<Event>, wires: seq<Laws.Wire>, ct: nat, id: string, up: bool)
    requires es != [] && Shows(wires, es, ct, id, up) && AllBounded(NewDocker, es, ct, id, up)
    ensures Accounted(NewDocker, es, ct, id, up) <= 1000 * (wires[|wires| - 1].bytes - wires[0].bytes)
  {
    AllBoundedIsRegular(NewDocker, es, ct, id, up);
    hide AllBounded, AllRegular;
    RegularNeverOverReported(es, wires, ct, id, up);
  }

  /** More generally: as long as every dropped total reports nothing, for which DropReportsZeroIff has the exact
      condition. */
  lemma {:induction false} RegularNeverOverReported(
    es: seq<Event>, wires: seq<Laws.Wire>, ct: nat, id: string, up: bool)
    requires es != [] && Shows(wires, es, ct, id, up) && AllRegular(NewDocker, es, ct, id, up)
    ensures Accounted(NewDocker, es, ct, id, up) <= 1000 * (wires[|wires| - 1].bytes - wires[0].bytes)
  {
    var w := AccountedWithin(es, wires, ct, id, up);
    hide Accounted, Remembers, After;
  }
}
