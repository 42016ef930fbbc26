/** What each step of the request protocol does, field by field, and that a response gets through. */
module RequestEffects {
  import opened Wrappers
  import opened RequestProtocol
  import opened RequestInvariant

  /** A response with an id is held for the request pending under that id; only if there is none is it closed. */
  lemma ResponseWithId(s: State, id: nat, oldest: nat)
    requires s.reader == Idle
    ensures Enabled(s, Arrives(WithId(id), oldest))
    ensures
      var t := Step(s, Arrives(WithId(id), oldest));
      t == if id in s.pending
           then s.(arrived := s.arrived + 1, reader := Holding(s.arrived, WithId(id), s.pending[id]))
           else s.(arrived := s.arrived + 1, closed := s.closed + [s.arrived])
  {}

  /** A response without an id is held for a pending request that was created first; only if nothing is pending is it
      closed. */
  lemma LegacyResponse(s: State, oldest: nat)
    requires s.reader == Idle
    ensures
      Enabled(s, Arrives(Legacy, oldest)) <==>
        s.pending == map[] ||
        (&& oldest < |s.requests| && s.requests[oldest].id in s.pending && s.pending[s.requests[oldest].id] == oldest
         && forall id | id in s.pending && s.pending[id] < |s.requests| ::
              s.requests[oldest].createdAt <= s.requests[s.pending[id]].createdAt)
    ensures Enabled(s, Arrives(Legacy, oldest)) ==>
      Step(s, Arrives(Legacy, oldest))
      == if s.pending != map[]
         then s.(arrived := s.arrived + 1, reader := Holding(s.arrived, Legacy, oldest))
         else s.(arrived := s.arrived + 1, closed := s.closed + [s.arrived])
  {}

  /** The reader puts the message into the channel of the request it holds it for, or closes it if the request's
      context is done; after a delivery it takes the request out of the map. */
  lemma ReaderMoves(s: State, m: Message, kind: Kind, i: nat)
    requires s.reader == Holding(m, kind, i) && i < |s.requests|
    ensures Enabled(s, ReaderSends) <==> s.requests[i].channel == None
    ensures Enabled(s, ReaderDrops) <==> s.requests[i].done
    ensures s.requests[i].channel == None ==>
      Step(s, ReaderSends)
      == s.(requests := s.requests[i := s.requests[i].(channel := Some(m))], reader := Removing(i),
            deliveries := s.deliveries + [Delivery(m, kind, i)])
    ensures s.requests[i].done ==> Step(s, ReaderDrops) == s.(reader := Idle, closed := s.closed + [m])
  {}

  lemma ReaderTidies(s: State, i: nat)
    requires s.reader == Removing(i) && i < |s.requests|
    ensures Enabled(s, ReaderRemoves)
    ensures Step(s, ReaderRemoves) == s.(pending := s.pending - {s.requests[i].id}, reader := Idle)
  {}

  /** A sender takes the next 32-bit id, then stores its request under it, then sends; a failed send ends the context
      and takes the request out again. */
  lemma SenderMoves(s: State, createdAt: int, i: nat)
    ensures
      var id := (s.nextId + 1) % 0x1_0000_0000;
      Step(s, Allocate(createdAt))
      == s.(nextId := id, requests := s.requests + [Request(id, createdAt, Allocated, None, false, false, Waiting)])
    ensures i < |s.requests| && s.requests[i].sender == Allocated ==>
      Step(s, Store(i))
      == s.(requests := s.requests[i := s.requests[i].(sender := Stored)], pending := s.pending[s.requests[i].id := i])
    ensures i < |s.requests| && s.requests[i].sender == Stored ==>
      Step(s, SendSucceeds(i)) == s.(requests := s.requests[i := s.requests[i].(sender := Returned, watching := true)])
  {}

  lemma FailedSend(s: State, i: nat)
    requires i < |s.requests| && s.requests[i].sender == Stored
    requires s.requests[i].id in s.pending && s.pending[s.requests[i].id] == i
    ensures
      Step(s, SendFails(i))
      == s.(requests := s.requests[i := s.requests[i].(sender := Failed, done := true)],
            pending := s.pending - {s.requests[i].id})
  {}

  /** A context ends for its own request only; its watcher then takes the request out, if it is still in. */
  lemma ContextMoves(s: State, i: nat)
    requires i < |s.requests|
    ensures Step(s, ContextEnds(i)) == s.(requests := s.requests[i := s.requests[i].(done := true)])
    ensures s.requests[i].watching && s.requests[i].done && s.requests[i].id !in s.pending ==>
      Step(s, WatcherFires(i)) == s.(requests := s.requests[i := s.requests[i].(watching := false)])
    ensures s.requests[i].watching && s.requests[i].done
            && s.requests[i].id in s.pending && s.pending[s.requests[i].id] == i ==>
      Step(s, WatcherFires(i))
      == s.(requests := s.requests[i := s.requests[i].(watching := false)], pending := s.pending - {s.requests[i].id})
  {}

  /** A receiver takes the message out of its channel, or leaves once its context is done. */
  lemma ReceiverMoves(s: State, i: nat)
    requires i < |s.requests| && s.requests[i].sender == Returned && s.requests[i].receiver == Waiting
    ensures Enabled(s, Receives(i)) <==> s.requests[i].channel.Some?
    ensures Enabled(s, Leaves(i)) <==> s.requests[i].done
    ensures s.requests[i].channel.Some? ==>
      Step(s, Receives(i))
      == s.(requests := s.requests[i := s.requests[i].(channel := None, receiver := Got(s.requests[i].channel.value))])
    ensures s.requests[i].done ==>
      Step(s, Leaves(i)) == s.(requests := s.requests[i := s.requests[i].(receiver := Left)])
  {}

  /** Close ends the context of every request in the map, of no other, and empties the map. */
  lemma CloseEndsAll(s: State)
    ensures
      var t := Step(s, Close);
      && t.pending == map[] && t == s.(requests := t.requests, pending := map[]) && |t.requests| == |s.requests|
      && forall i | 0 <= i < |s.requests| ::
           t.requests[i] == if s.requests[i].id in s.pending && s.pending[s.requests[i].id] == i
                            then s.requests[i].(done := true) else s.requests[i]
  {}

  /** Progress: in every reachable state with an idle reader, a response with the id of a request that waits in the
      map can be held, delivered and received in four steps, none of which anything can block, and it ends with
      that request's receiver. */
  lemma ResponseGetsThrough(es: seq<Event>, id: nat)
    requires Legal(es) && Sends(es) <= 0x1_0000_0000 && After(es).reader == Idle && id in After(es).pending
    requires
      var i := After(es).pending[id];
      i < |After(es).requests| && After(es).requests[i].sender == Returned && After(es).requests[i].receiver == Waiting
    ensures
      var s := After(es);
      var i := s.pending[id];
      var all := es + [Arrives(WithId(id), 0), ReaderSends, ReaderRemoves, Receives(i)];
      && Legal(all) && After(all).reader == Idle && |After(all).requests| == |s.requests|
      && After(all).requests[i].receiver == Got(s.arrived)
      && id !in After(all).pending && After(all).closed == s.closed
  {
    var s := After(es);
    var i := s.pending[id];
    var e1, e2, e3, e4 := Arrives(WithId(id), 0), ReaderSends, ReaderRemoves, Receives(i);
    RunKeepsInv(es);
    assert s.requests[i].id == id;
    ResponseWithId(s, id, 0);
    var s1 := Step(s, e1);
    StepKeepsInv(s, e1);
    assert s1.requests[i].channel == None;
    hide Inv, Step, Enabled;
    ReaderMoves(s1, s.arrived, WithId(id), i);
    var s2 := Step(s1, e2);
    ReaderTidies(s2, i);
    var s3 := Step(s2, e3);
    ReceiverMoves(s3, i);
    FourMore(es, e1, e2, e3, e4);
  }

  lemma FourMore(es: seq<Event>, e1: Event, e2: Event, e3: Event, e4: Event)
    requires Legal(es) && Enabled(After(es), e1)
    requires Enabled(Step(After(es), e1), e2)
    requires Enabled(Step(Step(After(es), e1), e2), e3)
    requires Enabled(Step(Step(Step(After(es), e1), e2), e3), e4)
    ensures Legal(es + [e1, e2, e3, e4])
    ensures After(es + [e1, e2, e3, e4]) == Step(Step(Step(Step(After(es), e1), e2), e3), e4)
  {
    hide Enabled, Step;
    OneMore(es, e1);
    OneMore(es + [e1], e2);
    OneMore(es + [e1] + [e2], e3);
    OneMore(es + [e1] + [e2] + [e3], e4);
    assert es + [e1] + [e2] + [e3] + [e4] == es + [e1, e2, e3, e4];
  }

  lemma OneMore(es: seq<Event>, e: Event)
    requires Legal(es) && Enabled(After(es), e)
    ensures Legal(es + [e]) && After(es + [e]) == Step(After(es), e)
  {
    assert (es + [e])[..|es|] == es;
  }
}
