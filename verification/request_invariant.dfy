/** Safety of the request protocol over every interleaving of up to 2^32 sends. */
module RequestInvariant {
  import opened Wrappers
  import opened RequestProtocol

  ghost predicate Delivered(deliveries: seq<Delivery>, i: nat) {
    exists k :: 0 <= k < |deliveries| && deliveries[k].request == i
  }

  /** Ids are handed out in order of allocation, modulo the width of the counter. */
  ghost predicate IdsOk(nextId: nat, requests: seq<Request>) {
    && nextId == |requests| % IDS
    && forall i | 0 <= i < |requests| :: requests[i].id == (i + 1) % IDS
  }

  ghost predicate PendingOk(requests: seq<Request>, pending: map<nat, nat>) {
    forall id | id in pending ::
      pending[id] < |requests| && requests[pending[id]].id == id && !requests[pending[id]].sender.Allocated?
  }

  /** A request still in the map has not been delivered to, except the one the reader is about to
      remove; the request the reader holds a message for has not been delivered to. */
  ghost predicate ReaderOk(requests: seq<Request>, pending: map<nat, nat>, reader: Reader, deliveries: seq<Delivery>) {
    && (forall id | id in pending :: Delivered(deliveries, pending[id]) ==> reader == Removing(pending[id]))
    && (reader.Holding? ==>
          && reader.request < |requests| && !Delivered(deliveries, reader.request)
          && !requests[reader.request].sender.Allocated?
          && (reader.kind.WithId? ==> requests[reader.request].id == reader.kind.id))
    && (reader.Removing? ==> reader.request < |requests| && Delivered(deliveries, reader.request))
  }

  /** A delivered message is in its request's channel or with its receiver. */
  predicate Placed(r: Request, m: Message) {
    (r.channel == Some(m) && !r.receiver.Got?) || (r.channel == None && r.receiver == Got(m))
  }

  /** At most one message per request, given to the request it names. */
  ghost predicate DeliveriesOk(requests: seq<Request>, deliveries: seq<Delivery>) {
    && (forall k | 0 <= k < |deliveries| ::
          var d := deliveries[k];
          && d.request < |requests| && !requests[d.request].sender.Allocated?
          && (d.kind.WithId? ==> requests[d.request].id == d.kind.id)
          && Placed(requests[d.request], d.message))
    && (forall k, l | 0 <= k < l < |deliveries| :: deliveries[k].request != deliveries[l].request)
    && (forall i | 0 <= i < |requests| && !Delivered(deliveries, i) ::
          requests[i].channel.None? && !requests[i].receiver.Got?)
  }

  /** No request is lost: stored and gone from the map means delivered to or cancelled. */
  ghost predicate NoneLost(requests: seq<Request>, pending: map<nat, nat>, deliveries: seq<Delivery>) {
    forall i | 0 <= i < |requests| && !requests[i].sender.Allocated? ::
      InMap(requests, pending, i) || Delivered(deliveries, i) || requests[i].done
  }

  function Messages(ds: seq<Delivery>): seq<Message> {
    seq(|ds|, k requires 0 <= k < |ds| => ds[k].message)
  }

  function Held(reader: Reader): multiset<Message> {
    if reader.Holding? then multiset{reader.message} else multiset{}
  }

  function Owned(deliveries: seq<Delivery>, closed: seq<Message>, reader: Reader): multiset<Message> {
    multiset(Messages(deliveries)) + multiset(closed) + Held(reader)
  }

  function Arrived(n: nat): multiset<Message> {
    multiset(seq(n, i => i))
  }

  /** Conservation: the messages that arrived are, each exactly once, the delivered ones, the closed
      ones and the one in the reader's hands. */
  ghost predicate OwnedOnce(arrived: nat, deliveries: seq<Delivery>, closed: seq<Message>, reader: Reader) {
    Owned(deliveries, closed, reader) == Arrived(arrived)
  }

  ghost predicate Inv(s: State) {
    && IdsOk(s.nextId, s.requests)
    && PendingOk(s.requests, s.pending)
    && ReaderOk(s.requests, s.pending, s.reader, s.deliveries)
    && DeliveriesOk(s.requests, s.deliveries)
    && NoneLost(s.requests, s.pending, s.deliveries)
    && OwnedOnce(s.arrived, s.deliveries, s.closed, s.reader)
  }

  // ---------------------------------------------------------------- identifiers

  /** Two requests share an id exactly when a multiple of 2^32 allocations lies between them. */
  lemma SameIdIff(s: State, i: nat, j: nat)
    requires IdsOk(s.nextId, s.requests) && i <= j < |s.requests|
    ensures s.requests[i].id == s.requests[j].id <==> (j - i) % IDS == 0
  {}

  lemma IdsDistinct(requests: seq<Request>, nextId: nat, i: nat, j: nat)
    requires IdsOk(nextId, requests) && |requests| <= IDS && i < |requests| && j < |requests|
    requires requests[i].id == requests[j].id
    ensures i == j
  {}

  // ---------------------------------------------------------------- steps that touch one request

  /** `r'` differs from `r` in nothing the protocol correlates by. */
  predicate SameIdentity(r: Request, r': Request) {
    && r'.id == r.id && r'.channel == r.channel && r'.receiver.Got? == r.receiver.Got?
    && (r.receiver.Got? ==> r'.receiver == r.receiver)
    && r'.sender.Allocated? == r.sender.Allocated? && (r.done ==> r'.done)
  }

  lemma TouchKeepsInv(s: State, i: nat, r: Request)
    requires Inv(s) && i < |s.requests| && SameIdentity(s.requests[i], r)
    ensures Inv(WithRequest(s, i, r))
  {
    hide OwnedOnce;
    var t := WithRequest(s, i, r);
    assert NoneLost(t.requests, t.pending, t.deliveries);
    assert DeliveriesOk(t.requests, t.deliveries);
  }

  lemma CancelKeepsInv(s: State, i: nat)
    requires Inv(s) && |s.requests| <= IDS && i < |s.requests|
    ensures Inv(CancelRequest(s, s.requests[i].id))
  {
    var id := s.requests[i].id;
    if id in s.pending {
      IdsDistinct(s.requests, s.nextId, s.pending[id], i);
      var t := WithRequest(s, i, s.requests[i].(done := true));
      TouchKeepsInv(s, i, s.requests[i].(done := true));
      ForgetKeepsInv(t, i);
    }
  }

  /** Removing a request from the map is harmless once it has been cancelled or delivered to. */
  lemma ForgetKeepsInv(s: State, i: nat)
    requires Inv(s) && |s.requests| <= IDS && i < |s.requests|
    requires s.requests[i].done || Delivered(s.deliveries, i)
    ensures Inv(DeleteRequest(s, s.requests[i].id))
  {
    hide OwnedOnce, DeliveriesOk, Delivered;
    forall j | 0 <= j < |s.requests| && s.requests[j].id == s.requests[i].id ensures j == i {
      IdsDistinct(s.requests, s.nextId, i, j);
    }
  }

  lemma AllocateKeepsInv(s: State, createdAt: int)
    requires Inv(s)
    ensures Inv(AllocateRequest(s, createdAt))
  {
    hide OwnedOnce;
    var t := AllocateRequest(s, createdAt);
    assert DeliveriesOk(t.requests, t.deliveries);
  }

  lemma StoreKeepsInv(s: State, i: nat)
    requires Inv(s) && i < |s.requests| <= IDS && s.requests[i].sender == Allocated
    ensures Inv(StoreRequest(s, i))
  {
    forall id | id in s.pending ensures id != s.requests[i].id {
      if id == s.requests[i].id { IdsDistinct(s.requests, s.nextId, s.pending[id], i); }
    }
    var t := StoreRequest(s, i);
    hide OwnedOnce;
    assert DeliveriesOk(t.requests, t.deliveries);
    assert !Delivered(s.deliveries, i);
    hide DeliveriesOk, Delivered;
  }

  // ---------------------------------------------------------------- the reader, the receivers, Close

  lemma ArrivedOneMore(n: nat)
    ensures Arrived(n + 1) == Arrived(n) + multiset{n}
  {
    assert seq(n + 1, i => i) == seq(n, i => i) + [n];
  }

  lemma LookUpKeepsInv(s: State, kind: Kind, oldest: nat)
    requires Inv(s) && Enabled(s, Arrives(kind, oldest))
    ensures Inv(LookUp(s, kind, oldest))
  {
    LookUpOwnsOnce(s, kind, oldest);
    hide OwnedOnce, DeliveriesOk, NoneLost, Delivered;
  }

  lemma LookUpOwnsOnce(s: State, kind: Kind, oldest: nat)
    requires OwnedOnce(s.arrived, s.deliveries, s.closed, s.reader) && s.reader.Idle?
    ensures
      var t := LookUp(s, kind, oldest);
      OwnedOnce(t.arrived, t.deliveries, t.closed, t.reader)
  {
    hide Arrived, Messages;
    ArrivedOneMore(s.arrived);
    var t := LookUp(s, kind, oldest);
    var delivered, closed := multiset(Messages(s.deliveries)), multiset(s.closed);
    assert Arrived(s.arrived) == delivered + closed;
    if t.reader.Holding? {
      assert Owned(t.deliveries, t.closed, t.reader) == delivered + closed + multiset{s.arrived};
    } else {
      assert t.closed == s.closed + [s.arrived];
      assert multiset(t.closed) == closed + multiset{s.arrived};
      assert Owned(t.deliveries, t.closed, t.reader) == delivered + (closed + multiset{s.arrived});
    }
  }

  lemma DeliveredAppend(ds: seq<Delivery>, d: Delivery)
    ensures forall i :: Delivered(ds + [d], i) <==> Delivered(ds, i) || i == d.request
    ensures multiset(Messages(ds + [d])) == multiset(Messages(ds)) + multiset{d.message}
  {
    assert (ds + [d])[|ds|] == d;
    forall i | Delivered(ds, i) ensures Delivered(ds + [d], i) {
      var k :| 0 <= k < |ds| && ds[k].request == i;
      assert (ds + [d])[k].request == i;
    }
    assert Messages(ds + [d]) == Messages(ds) + [d.message];
  }

  lemma SendKeepsInv(s: State)
    requires Inv(s) && Enabled(s, ReaderSends)
    ensures Inv(Step(s, ReaderSends))
  {
    hide Delivered, DeliveriesOk, OwnedOnce;
    var i := s.reader.request;
    var d := Delivery(s.reader.message, s.reader.kind, i);
    var t := Step(s, ReaderSends);
    SendOwnsOnce(s);
    DeliveredAppend(s.deliveries, d);
    hide Messages;
    SentDeliveriesOk(s.requests, t.requests, s.deliveries, d);
  }

  lemma SendOwnsOnce(s: State)
    requires OwnedOnce(s.arrived, s.deliveries, s.closed, s.reader) && Enabled(s, ReaderSends)
    ensures
      var t := Step(s, ReaderSends);
      OwnedOnce(t.arrived, t.deliveries, t.closed, t.reader)
  {
    var t := Step(s, ReaderSends);
    var m := s.reader.message;
    DeliveredAppend(s.deliveries, Delivery(m, s.reader.kind, s.reader.request));
    hide Arrived, Messages, Delivered;
    var delivered, closed := multiset(Messages(s.deliveries)), multiset(s.closed);
    assert Arrived(s.arrived) == delivered + closed + multiset{m};
    assert Owned(t.deliveries, t.closed, t.reader) == delivered + multiset{m} + closed;
  }

  lemma SentDeliveriesOk(requests: seq<Request>, requests': seq<Request>, ds: seq<Delivery>, d: Delivery)
    requires DeliveriesOk(requests, ds) && d.request < |requests| && !Delivered(ds, d.request)
    requires !requests[d.request].sender.Allocated?
    requires d.kind.WithId? ==> requests[d.request].id == d.kind.id
    requires requests' == requests[d.request := requests[d.request].(channel := Some(d.message))]
    ensures DeliveriesOk(requests', ds + [d])
  {
    DeliveredAppend(ds, d);
    forall k | 0 <= k < |ds| ensures ds[k].request != d.request {}
  }

  lemma ReceiveKeepsInv(s: State, i: nat)
    requires Inv(s) && Enabled(s, Receives(i))
    ensures Inv(Step(s, Receives(i)))
  {
    hide OwnedOnce;
    var t := Step(s, Receives(i));
    assert DeliveriesOk(t.requests, t.deliveries);
    assert NoneLost(t.requests, t.pending, t.deliveries);
    hide Delivered, DeliveriesOk, NoneLost;
  }

  lemma CloseKeepsInv(s: State)
    requires Inv(s)
    ensures Inv(CloseAll(s))
  {
    hide OwnedOnce;
    var t := CloseAll(s);
    assert DeliveriesOk(t.requests, t.deliveries);
    assert NoneLost(t.requests, t.pending, t.deliveries);
    hide Delivered, DeliveriesOk, NoneLost;
  }

  /** Every step of every participant keeps the invariant, as long as the ids have not wrapped around. */
  lemma StepKeepsInv(s: State, e: Event)
    requires Inv(s) && Enabled(s, e) && |s.requests| <= IDS
    ensures Inv(Step(s, e))
  {
    match e
    case Allocate(createdAt) => AllocateKeepsInv(s, createdAt); hide *;
    case Store(i) => StoreKeepsInv(s, i); hide *;
    case SendSucceeds(i) => TouchKeepsInv(s, i, s.requests[i].(sender := Returned, watching := true)); hide *;
    case SendFails(i) =>
      var r := s.requests[i].(sender := Failed);
      TouchKeepsInv(s, i, r);
      CancelKeepsInv(WithRequest(s, i, r), i);
      hide *;
    case ContextEnds(i) => TouchKeepsInv(s, i, s.requests[i].(done := true)); hide *;
    case WatcherFires(i) =>
      var r := s.requests[i].(watching := false);
      TouchKeepsInv(s, i, r);
      CancelKeepsInv(WithRequest(s, i, r), i);
      hide *;
    case Arrives(kind, oldest) => LookUpKeepsInv(s, kind, oldest); hide *;
    case ReaderSends => SendKeepsInv(s); hide *;
    case ReaderDrops => DropKeepsInv(s); hide *;
    case ReaderRemoves => RemoveKeepsInv(s); hide *;
    case Receives(i) => ReceiveKeepsInv(s, i); hide *;
    case Leaves(i) => TouchKeepsInv(s, i, s.requests[i].(receiver := Left)); hide *;
    case Close => CloseKeepsInv(s); hide *;
  }

  lemma DropKeepsInv(s: State)
    requires Inv(s) && Enabled(s, ReaderDrops)
    ensures Inv(Step(s, ReaderDrops))
  {
    var t := Step(s, ReaderDrops);
    assert multiset(t.closed) == multiset(s.closed) + multiset{s.reader.message};
    hide Messages, Arrived, DeliveriesOk, NoneLost, Delivered;
  }

  lemma RemoveKeepsInv(s: State)
    requires Inv(s) && Enabled(s, ReaderRemoves) && |s.requests| <= IDS
    ensures Inv(Step(s, ReaderRemoves))
  {
    var i := s.reader.request;
    forall j | 0 <= j < |s.requests| && s.requests[j].id == s.requests[i].id ensures j == i {
      IdsDistinct(s.requests, s.nextId, i, j);
    }
    hide Delivered, DeliveriesOk, Messages, Arrived;
  }

  function Sends(es: seq<Event>): nat {
    if es == [] then 0 else Sends(es[..|es| - 1]) + (if es[|es| - 1].Allocate? then 1 else 0)
  }

  lemma {:induction false} RunKeepsInv(es: seq<Event>)
    requires Legal(es) && Sends(es) <= IDS
    ensures |After(es).requests| == Sends(es) && Inv(After(es))
    decreases |es|
  {
    if es == [] {
      assert Messages([]) == [];
      assert Arrived(0) == multiset{} by { assert seq(0, i => i) == []; }
    } else {
      var init := es[..|es| - 1];
      RunKeepsInv(init);
      StepKeepsInv(After(init), es[|es| - 1]);
      RequestsGrow(After(init), es[|es| - 1]);
      hide Inv, Step, Enabled;
    }
  }

  lemma RequestsGrow(s: State, e: Event)
    requires Enabled(s, e)
    ensures |Step(s, e).requests| == |s.requests| + if e.Allocate? then 1 else 0
  {}

  // ---------------------------------------------------------------- what users of the manager rely on

  /** Exactly-once ownership: of the messages that reached the manager each is, exactly once, delivered
      to one request, closed by the manager, or still in the reader's hands; and no request is
      delivered to twice. */
  lemma ExactlyOnce(es: seq<Event>, m: Message)
    requires Legal(es) && Sends(es) <= IDS
    ensures
      var s := After(es);
      && multiset(Messages(s.deliveries))[m] + multiset(s.closed)[m] + Held(s.reader)[m]
         == (if m < s.arrived then 1 else 0)
      && forall k, l | 0 <= k < l < |s.deliveries| :: s.deliveries[k].request != s.deliveries[l].request
  {
    RunKeepsInv(es);
    var s := After(es);
    assert Owned(s.deliveries, s.closed, s.reader)[m] == Arrived(s.arrived)[m];
    ArrivedOnce(s.arrived, m);
  }

  lemma {:induction false} ArrivedOnce(n: nat, m: Message)
    ensures Arrived(n)[m] == if m < n then 1 else 0
  {
    if n == 0 {
      assert seq(0, i => i) == [];
    } else {
      ArrivedOnce(n - 1, m);
      ArrivedOneMore(n - 1);
    }
  }

  /** The reader never blocks: whenever it holds a message for a request, the channel has room. */
  lemma ReaderNeverBlocks(es: seq<Event>)
    requires Legal(es) && Sends(es) <= IDS && After(es).reader.Holding?
    ensures Enabled(After(es), ReaderSends)
  {
    RunKeepsInv(es);
  }

  /** No request is lost, and no two requests share an id. */
  lemma NoRequestLost(es: seq<Event>, i: nat)
    requires Legal(es) && Sends(es) <= IDS && i < |After(es).requests|
    ensures
      var s := After(es);
      && (!s.requests[i].sender.Allocated? ==>
            InMap(s.requests, s.pending, i) || Delivered(s.deliveries, i) || s.requests[i].done)
      && forall j | 0 <= j < |s.requests| && j != i :: s.requests[j].id != s.requests[i].id
  {
    RunKeepsInv(es);
    var s := After(es);
    forall j | 0 <= j < |s.requests| && j != i ensures s.requests[j].id != s.requests[i].id {
      if s.requests[j].id == s.requests[i].id { IdsDistinct(s.requests, s.nextId, i, j); }
    }
  }

  /** A response that carries an id is only ever given to the request with that id, and every delivered
      message is in that request's channel or was taken by its receiver. */
  lemma ResponsesReachTheirRequest(es: seq<Event>, k: nat)
    requires Legal(es) && Sends(es) <= IDS && k < |After(es).deliveries|
    ensures
      var s := After(es);
      var d := s.deliveries[k];
      && d.request < |s.requests|
      && (d.kind.WithId? ==> s.requests[d.request].id == d.kind.id)
      && Placed(s.requests[d.request], d.message)
  {
    RunKeepsInv(es);
  }

  /** A message a receiver took, and closes when it is done, is closed by nobody else: it arrived, the manager has
      not closed it, and no other request has it in its channel or with its receiver. */
  lemma ClosedAtMostOnce(es: seq<Event>, i: nat, m: Message)
    requires Legal(es) && Sends(es) <= IDS && i < |After(es).requests| && After(es).requests[i].receiver == Got(m)
    ensures
      var s := After(es);
      && m < s.arrived && m !in s.closed && s.requests[i].channel.None?
      && forall j | 0 <= j < |s.requests| && j != i ::
           s.requests[j].receiver != Got(m) && s.requests[j].channel != Some(m)
  {
    RunKeepsInv(es);
    ExactlyOnce(es, m);
    var s := After(es);
    hide Inv, IdsOk, PendingOk, ReaderOk, NoneLost, OwnedOnce, After, Legal;
    var k := DeliveryOf(s, i, m);
    MessageCounted(s.deliveries, k);
    forall j | 0 <= j < |s.requests| && j != i
      ensures s.requests[j].receiver != Got(m) && s.requests[j].channel != Some(m)
    {
      if s.requests[j].receiver == Got(m) || s.requests[j].channel == Some(m) {
        var l := DeliveryOf(s, j, m);
        CountedTwice(Messages(s.deliveries), k, l, m);
      }
    }
  }

  lemma DeliveryOf(s: State, i: nat, m: Message) returns (k: nat)
    requires DeliveriesOk(s.requests, s.deliveries) && i < |s.requests|
    requires s.requests[i].receiver == Got(m) || s.requests[i].channel == Some(m)
    ensures k < |s.deliveries| && s.deliveries[k].request == i && s.deliveries[k].message == m
    ensures s.requests[i].receiver == Got(m) ==> s.requests[i].channel.None?
  {
    assert Delivered(s.deliveries, i);
    k :| 0 <= k < |s.deliveries| && s.deliveries[k].request == i;
  }

  lemma MessageCounted(ds: seq<Delivery>, k: nat)
    requires k < |ds|
    ensures multiset(Messages(ds))[ds[k].message] >= 1
  {
    assert Messages(ds)[k] == ds[k].message;
    assert ds[k].message in Messages(ds);
  }

  lemma CountedTwice(xs: seq<Message>, k: nat, l: nat, m: Message)
    requires k < |xs| && l < |xs| && k != l && xs[k] == xs[l] == m
    ensures multiset(xs)[m] >= 2
  {
    var (a, b) := (if k < l then k else l, if k < l then l else k);
    assert xs == xs[..b] + [xs[b]] + xs[b + 1..];
    assert xs[a] in xs[..b];
  }

  /** A watcher cancels and removes its own request or nothing. */
  lemma WatcherTouchesOnlyItsOwn(es: seq<Event>, i: nat, j: nat)
    requires Legal(es) && Sends(es) <= IDS && Enabled(After(es), WatcherFires(i))
    requires j < |After(es).requests| && j != i
    ensures
      var s, t := After(es), Step(After(es), WatcherFires(i));
      && t.requests[j] == s.requests[j]
      && InMap(t.requests, t.pending, j) == InMap(s.requests, s.pending, j)
      && !InMap(t.requests, t.pending, i)
  {
    RunKeepsInv(es);
    var s := After(es);
    if s.requests[i].id in s.pending {
      IdsDistinct(s.requests, s.nextId, i, s.pending[s.requests[i].id]);
    }
    if s.requests[j].id == s.requests[i].id { IdsDistinct(s.requests, s.nextId, i, j); }
  }

  // ---------------------------------------------------------------- past the bound

  /** Storing a request keeps every earlier request accounted for exactly when its id is free in the
      map or the request found there has already been delivered to or cancelled. */
  lemma StoreLosesIff(s: State, i: nat)
    requires NoneLost(s.requests, s.pending, s.deliveries) && PendingOk(s.requests, s.pending)
    requires i < |s.requests| && s.requests[i].sender == Allocated
    ensures
      var t := StoreRequest(s, i);
      var id := s.requests[i].id;
      NoneLost(t.requests, t.pending, t.deliveries) <==>
      (id !in s.pending || Delivered(s.deliveries, s.pending[id]) || s.requests[s.pending[id]].done)
  {
    var t := StoreRequest(s, i);
    var id := s.requests[i].id;
    hide Delivered;
    if id in s.pending {
      var j := s.pending[id];
      assert j != i && t.requests[j] == s.requests[j] && !InMap(t.requests, t.pending, j);
    }
  }

  function Allocations(s: State, n: nat): State {
    if n == 0 then s else AllocateRequest(Allocations(s, n - 1), 0)
  }

  lemma AllocateKeepsIds(s: State)
    requires IdsOk(s.nextId, s.requests)
    ensures var t := AllocateRequest(s, 0); IdsOk(t.nextId, t.requests)
  {}

  lemma {:induction false} AllocationsEffect(s: State, n: nat)
    requires IdsOk(s.nextId, s.requests)
    ensures
      var t := Allocations(s, n);
      && IdsOk(t.nextId, t.requests) && |t.requests| == |s.requests| + n && t.requests[..|s.requests|] == s.requests
      && t == s.(nextId := t.nextId, requests := t.requests)
      && (n > 0 ==> t.requests[|t.requests| - 1].sender == Allocated)
  {
    if n > 0 {
      AllocationsEffect(s, n - 1);
      AllocateKeepsIds(Allocations(s, n - 1));
      hide IdsOk;
    }
  }

  lemma {:induction false} AllocationsLegal(es: seq<Event>, n: nat)
    requires Legal(es)
    ensures
      var all := es + seq(n, _ => Allocate(0));
      Legal(all) && After(all) == Allocations(After(es), n) && Sends(all) == Sends(es) + n
  {
    var all := es + seq(n, _ => Allocate(0));
    if n == 0 {
      assert all == es;
    } else {
      AllocationsLegal(es, n - 1);
      assert all[..|all| - 1] == es + seq(n - 1, _ => Allocate(0));
    }
  }

  /** The bound is tight: one send more than 2^32 and a run exists in which the first request is stored,
      never delivered to, never cancelled, and no longer in the map. */
  lemma OneSendTooMany() returns (es: seq<Event>)
    ensures Legal(es) && Sends(es) == IDS + 1
    ensures
      var s := After(es);
      && |s.requests| > 0 && s.requests[0].sender.Stored? && !s.requests[0].done
      && !Delivered(s.deliveries, 0) && !InMap(s.requests, s.pending, 0)
  {
    var first := [Allocate(0), Store(0)];
    FirstStored(first);
    hide Legal, After, Sends, Allocations;
    var s := After(first);
    AllocationsLegal(first, IDS);
    AllocationsEffect(s, IDS);
    var many := first + seq(IDS, _ => Allocate(0));
    es := many + [Store(IDS)];
    StoreLast(many, es, s);
  }

  lemma FirstStored(es: seq<Event>)
    requires es == [Allocate(0), Store(0)]
    ensures Legal(es) && Sends(es) == 1
    ensures
      var s := After(es);
      && |s.requests| == 1 && s.requests[0].sender.Stored? && !s.requests[0].done && s.deliveries == []
      && IdsOk(s.nextId, s.requests)
  {
    assert es[..1] == [Allocate(0)] && [Allocate(0)][..0] == [];
    assert Legal([]) && Legal([Allocate(0)]);
  }

  lemma StoreLast(many: seq<Event>, es: seq<Event>, s: State)
    requires es == many + [Store(IDS)] && Legal(many) && Sends(many) == IDS + 1
    requires |s.requests| == 1 && s.requests[0].sender.Stored? && !s.requests[0].done && s.deliveries == []
    requires
      var t := After(many);
      && IdsOk(t.nextId, t.requests) && |t.requests| == IDS + 1 && t.requests[..1] == s.requests
      && t == s.(nextId := t.nextId, requests := t.requests) && t.requests[IDS].sender == Allocated
    ensures Legal(es) && Sends(es) == IDS + 1
    ensures
      var u := After(es);
      && |u.requests| > 0 && u.requests[0].sender.Stored? && !u.requests[0].done
      && !Delivered(u.deliveries, 0) && !InMap(u.requests, u.pending, 0)
  {
    var t := After(many);
    assert es[..|es| - 1] == many;
    assert t.requests[0] == t.requests[..1][0] == s.requests[0];
    SameIdIff(t, 0, IDS);
    hide IdsOk;
  }
}
