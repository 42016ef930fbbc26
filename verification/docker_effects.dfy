/** One reading of a container, told in counters and numbers. Times are in nanoseconds. */
module DockerEffects {
  import opened Words
  import opened DeltaTracking
  import opened DockerNetwork

  const W := 0x1_0000_0000_0000_0000

  function SumTx(links: seq<Link>): nat {
    if links == [] then 0 else SumTx(links[..|links| - 1]) + links[|links| - 1].tx
  }

  function SumRx(links: seq<Link>): nat {
    if links == [] then 0 else SumRx(links[..|links| - 1]) + links[|links| - 1].rx
  }

  /** The totals are the sums over all networks, in 64 bits. */
  lemma {:induction false} TotalsAre(links: seq<Link>)
    ensures TotalTx(links) == SumTx(links) % W && TotalRx(links) == SumRx(links) % W
  {
    if links == [] {
      SmallMod(0);
    } else {
      var init, last := links[..|links| - 1], links[|links| - 1];
      TotalsAre(init);
      WrapTwice(SumTx(init), last.tx);
      WrapTwice(SumRx(init), last.rx);
    }
  }

  /** Bytes per second since the container's total of the previous cycle; zero beyond 5 GB/s, and zero for a container
      that the previous cycle or the read times do not know. */
  function SpeedOf(
    trackers: map<nat, Tracker>, lastRead: map<nat, map<string, nat>>, ct: nat, id: string, now: nat, total: nat): nat
  {
    if ct !in trackers || id !in trackers[ct].previous || ct !in lastRead || id !in lastRead[ct] then 0
    else
      var ms := if now >= lastRead[ct][id] then (now - lastRead[ct][id]) / 1_000_000 else 0;
      var rate := if ms == 0 then 0 else (total - trackers[ct].previous[id]) % W * 1000 % W / ms;
      if rate > 5_000_000_000 then 0 else rate
  }

  /** The tracker of an interval with one more total. */
  function Noted(trackers: map<nat, Tracker>, ct: nat, id: string, total: Word): Tracker {
    if ct in trackers then Tracker(trackers[ct].current[id := total], trackers[ct].previous)
    else Tracker(map[id := total], map[])
  }

  /** Reading a container: its sent speed comes from the bytes transmitted on all its networks, its received speed
      from those received; the totals and the time are noted, in this interval only. */
  lemma {:induction false} ContainerRead(d: Docker, ct: nat, id: string, now: nat, links: seq<Link>)
    ensures
      var (sent, recv) := (SumTx(links) % W, SumRx(links) % W);
      var times: map<string, nat> := if ct in d.lastRead then d.lastRead[ct] else map[];
      Visited(d, ct, id, now, links) == (
        Docker(d.sent[ct := Noted(d.sent, ct, id, sent)], d.recv[ct := Noted(d.recv, ct, id, recv)],
               d.lastRead[ct := times[id := now]]),
        Speed(SpeedOf(d.sent, d.lastRead, ct, id, now, sent), SpeedOf(d.recv, d.lastRead, ct, id, now, recv)))
  {
    TotalsAre(links);
    SpeedIs(d.sent, d.lastRead, ct, id, now, TotalTx(links));
    SpeedIs(d.recv, d.lastRead, ct, id, now, TotalRx(links));
    hide TotalTx, TotalRx, SumTx, SumRx, SpeedOf, Plausible, DeltaIn;
  }

  lemma SpeedIs(
    trackers: map<nat, Tracker>, lastRead: map<nat, map<string, nat>>, ct: nat, id: string, now: nat, total: Word)
    ensures Plausible(DeltaIn(WithValue(TrackerIn(trackers, ct), id, total), id), Elapsed(Reads(lastRead, ct), id, now))
            == SpeedOf(trackers, lastRead, ct, id, now, total)
  {
    NothingPerSecond(Elapsed(Reads(lastRead, ct), id, now));
  }

  /** The end of a cycle makes the totals of its interval the previous ones, and forgetting a container takes its
      read times, in every interval; neither does anything else. */
  lemma {:induction false} CyclesAndForgets(d: Docker, ct: nat, id: string)
    ensures Step(d, EndCycle(ct)) == Docker(
              if ct in d.sent then d.sent[ct := Tracker(map[], d.sent[ct].current)] else d.sent,
              if ct in d.recv then d.recv[ct := Tracker(map[], d.recv[ct].current)] else d.recv, d.lastRead)
    ensures
      var d' := Step(d, Forget(id));
      && d' == Docker(d.sent, d.recv, d'.lastRead) && d'.lastRead.Keys == d.lastRead.Keys
      && forall c | c in d.lastRead :: d'.lastRead[c] == d.lastRead[c] - {id}
  {}
}
