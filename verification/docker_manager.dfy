/** The container network state, updated in place. */
module DockerManagement {
  import opened Words
  import opened DeltaTracking
  import opened DockerNetwork
  import Rates = NetworkRates

  type Trackers = map<nat, DeltaTracker>

  ghost predicate Holds(objects: Trackers, values: map<nat, Tracker>)
    reads objects.Values
  {
    && values.Keys == objects.Keys
    && (forall ct | ct in objects :: objects[ct].State() == values[ct])
    && (forall ct, other | ct in objects && other in objects && ct != other :: objects[ct] != objects[other])
  }

  /** The tracker of one interval, created on first use. */
  method GetNetworkTracker(objects: Trackers, ghost values: map<nat, Tracker>, ct: nat)
    returns (r: Trackers, tracker: DeltaTracker)
    requires Holds(objects, values)
    ensures r == objects[ct := tracker] && (if ct in objects then tracker == objects[ct] else fresh(tracker))
    ensures Holds(r, values[ct := TrackerIn(values, ct)]) && tracker.State() == TrackerIn(values, ct)
  {
    r := objects;
    if ct !in r {
      tracker := new DeltaTracker();
      r := r[ct := tracker];
    }
    tracker := r[ct];
  }

  method CycleTracker(objects: Trackers, ghost values: map<nat, Tracker>, ct: nat)
    requires Holds(objects, values)
    modifies objects.Values
    ensures Holds(objects, CycledIn(values, ct))
  {
    if ct in objects {
      objects[ct].Cycle();
    }
  }

  /** Sets a container's total in an interval's tracker and asks for its delta. */
  method SetAndAsk(objects: Trackers, ghost values: map<nat, Tracker>, ct: nat, id: string, total: Word)
    returns (r: Trackers, delta: Word)
    requires Holds(objects, values)
    modifies objects.Values
    ensures Holds(r, values[ct := WithValue(TrackerIn(values, ct), id, total)])
    ensures fresh(r.Values - objects.Values)
    ensures delta == DeltaIn(WithValue(TrackerIn(values, ct), id, total), id)
  {
    var tracker: DeltaTracker;
    r, tracker := GetNetworkTracker(objects, values, ct);
    hide TrackerIn, DeltaIn, WithValue;
    tracker.Set(id, total);
    delta := tracker.Delta(id);
  }

  /** The rate of a raw delta; 0 if nothing moved, no time passed, or it is implausible. */
  method RateOf(raw: Word, ms: nat) returns (rate: nat)
    ensures rate == Plausible(raw, ms)
  {
    rate := 0;
    if ms > 0 {
      if raw > 0 {
        rate := raw * 1000 % WORD / ms;
        if rate > LIMIT {
          rate := 0;
        }
      } else {
        NothingPerSecond(ms);
      }
    }
  }

  method Totals(links: seq<Link>) returns (sent: Word, recv: Word)
    ensures sent == TotalTx(links) && recv == TotalRx(links)
  {
    sent, recv := 0, 0;
    for i := 0 to |links|
      invariant sent == TotalTx(links[..i]) && recv == TotalRx(links[..i])
    {
      assert links[..i + 1][..i] == links[..i];
      sent := (sent + links[i].tx) % WORD;
      recv := (recv + links[i].rx) % WORD;
    }
    assert links[..|links|] == links;
  }

  class DockerManager {
    var networkSentTrackers: Trackers
    var networkRecvTrackers: Trackers
    var lastNetworkReadTime: map<nat, map<string, nat>>

    /** The trackers' contents, kept up to date for specification. */
    ghost var docker: Docker

    ghost predicate Valid()
      reads this, networkSentTrackers.Values, networkRecvTrackers.Values
    {
      && Holds(networkSentTrackers, docker.sent) && Holds(networkRecvTrackers, docker.recv)
      && networkSentTrackers.Values !! networkRecvTrackers.Values
      && docker.lastRead == lastNetworkReadTime
    }

    constructor ()
      ensures Valid() && docker == NewDocker
    {
      networkSentTrackers, networkRecvTrackers, lastNetworkReadTime := map[], map[], map[];
      docker := NewDocker;
    }

    method CycleNetworkDeltasForCacheTime(ct: nat)
      requires Valid()
      modifies this`docker, networkSentTrackers.Values, networkRecvTrackers.Values
      ensures Valid() && docker == Step(old(docker), EndCycle(ct))
    {
      hide CycledIn, Holds;
      CycleTracker(networkSentTrackers, docker.sent, ct);
      CycleTracker(networkRecvTrackers, docker.recv, ct);
      docker := docker.(sent := CycledIn(docker.sent, ct), recv := CycledIn(docker.recv, ct));
    }

    method CalculateNetworkStats(id: string, links: seq<Link>, ct: nat, now: nat) returns (up: nat, down: nat)
      requires Valid()
      modifies this, networkSentTrackers.Values, networkRecvTrackers.Values
      ensures Valid()
      ensures fresh(networkSentTrackers.Values - old(networkSentTrackers.Values))
      ensures fresh(networkRecvTrackers.Values - old(networkRecvTrackers.Values))
      ensures Speed(up, down) == Visited(old(docker), ct, id, now, links).1
      ensures docker == Visited(old(docker), ct, id, now, links).0.(lastRead := old(docker.lastRead))
    {
      hide Plausible, WithValue, DeltaIn, Holds, TotalTx, TotalRx, TrackerIn, Reads, Elapsed;
      var sent, recv := Totals(links);
      var rawSent, rawRecv := SetTotals(ct, id, sent, recv);
      up, down := SpeedsSince(id, rawSent, rawRecv, ct, now);
    }

    method SetTotals(ct: nat, id: string, sent: Word, recv: Word) returns (rawSent: Word, rawRecv: Word)
      requires Valid()
      modifies this`networkSentTrackers, this`networkRecvTrackers, this`docker,
        networkSentTrackers.Values, networkRecvTrackers.Values
      ensures Valid()
      ensures fresh(networkSentTrackers.Values - old(networkSentTrackers.Values))
      ensures fresh(networkRecvTrackers.Values - old(networkRecvTrackers.Values))
      ensures
        var s := WithValue(TrackerIn(old(docker.sent), ct), id, sent);
        var r := WithValue(TrackerIn(old(docker.recv), ct), id, recv);
        && rawSent == DeltaIn(s, id) && rawRecv == DeltaIn(r, id)
        && docker == old(docker).(sent := old(docker.sent)[ct := s], recv := old(docker.recv)[ct := r])
    {
      hide WithValue, DeltaIn, Holds, TrackerIn;
      var sents, recvs := networkSentTrackers, networkRecvTrackers;
      sents, rawSent := SetAndAsk(sents, docker.sent, ct, id, sent);
      assert sents.Values !! recvs.Values;
      recvs, rawRecv := SetAndAsk(recvs, docker.recv, ct, id, recv);
      assert sents.Values !! recvs.Values;
      networkSentTrackers, networkRecvTrackers := sents, recvs;
      docker := docker.(sent := docker.sent[ct := WithValue(TrackerIn(docker.sent, ct), id, sent)],
                        recv := docker.recv[ct := WithValue(TrackerIn(docker.recv, ct), id, recv)]);
    }

    /** The rates of two raw deltas over the time since the container was last read in this interval. */
    method SpeedsSince(id: string, rawSent: Word, rawRecv: Word, ct: nat, now: nat) returns (up: nat, down: nat)
      ensures up == Plausible(rawSent, Elapsed(Reads(lastNetworkReadTime, ct), id, now))
      ensures down == Plausible(rawRecv, Elapsed(Reads(lastNetworkReadTime, ct), id, now))
    {
      var ms := 0;
      if ct in lastNetworkReadTime && id in lastNetworkReadTime[ct] && now >= lastNetworkReadTime[ct][id] {
        ms := (now - lastNetworkReadTime[ct][id]) / Rates.MILLISECOND;
      }
      up := RateOf(rawSent, ms);
      down := RateOf(rawRecv, ms);
    }

    /** Reads one container in one interval, and notes when. */
    method UpdateContainer(id: string, links: seq<Link>, ct: nat, now: nat) returns (up: nat, down: nat)
      requires Valid()
      modifies this, networkSentTrackers.Values, networkRecvTrackers.Values
      ensures Valid()
      ensures fresh(networkSentTrackers.Values - old(networkSentTrackers.Values))
      ensures fresh(networkRecvTrackers.Values - old(networkRecvTrackers.Values))
      ensures (docker, Speed(up, down)) == Visited(old(docker), ct, id, now, links)
    {
      hide Plausible, WithValue, DeltaIn, Holds, TotalTx, TotalRx, TrackerIn;
      up, down := CalculateNetworkStats(id, links, ct, now);
      var times: map<string, nat> := if ct in lastNetworkReadTime then lastNetworkReadTime[ct] else map[];
      times := times[id := now];
      lastNetworkReadTime := lastNetworkReadTime[ct := times];
      docker := docker.(lastRead := lastNetworkReadTime);
    }

    /** Forgets when a container was last read, in every interval. */
    method ForgetReadTimes(id: string)
      requires Valid()
      modifies this`lastNetworkReadTime, this`docker
      ensures Valid() && docker == Step(old(docker), Forget(id))
    {
      hide Holds;
      lastNetworkReadTime := WithoutId(lastNetworkReadTime, id);
      docker := Forgotten(docker, id);
    }
  }

  method WithoutId(times: map<nat, map<string, nat>>, id: string) returns (r: map<nat, map<string, nat>>)
    ensures r == map ct | ct in times :: times[ct] - {id}
  {
    r := times;
    var todo := times.Keys;
    while todo != {}
      invariant todo <= times.Keys
      invariant r == map ct | ct in times :: if ct in todo then times[ct] else times[ct] - {id}
    {
      var ct :| ct in todo;
      r := r[ct := r[ct] - {id}];
      todo := todo - {ct};
    }
  }
}
