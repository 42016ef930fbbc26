/** Correlation of responses with requests over one WebSocket: senders, one reader, a watcher and a
    receiver per request, and Close, interleaved at the granularity of the manager's critical sections. */
module RequestProtocol {

  import opened Wrappers

  const IDS: nat := 0x1_0000_0000   // request ids are 32-bit and wrap around

  type Message = nat                // messages are numbered in order of arrival

  /** Where the goroutine in SendRequest is. */
  datatype Sender = Allocated | Stored | Returned | Failed

  /** Where the goroutine that waits for the response is. */
  datatype Receiver = Waiting | Got(message: Message) | Left

  /** A pending request: its channel holds at most one message; `done` is the state of its context. */
  datatype Request = Request(
    id: nat, createdAt: int, sender: Sender, channel: Option<Message>, done: bool, watching: bool, receiver: Receiver)

  /** A response either carries a request id or comes from a legacy agent and carries none. */
  datatype Kind = WithId(id: nat) | Legacy

  datatype Delivery = Delivery(message: Message, kind: Kind, request: nat)

  /** The reader between its lookup and its send, and between its send and the removal from the map. */
  datatype Reader = Idle | Holding(message: Message, kind: Kind, request: nat) | Removing(request: nat)

  datatype State = State(
    nextId: nat,
    requests: seq<Request>,
    pending: map<nat, nat>,
    reader: Reader,
    arrived: nat,
    deliveries: seq<Delivery>,
    closed: seq<Message>)

  const Initial := State(0, [], map[], Idle, 0, [], [])

  datatype Event =
    | Allocate(createdAt: int)
    | Store(i: nat)
    | SendSucceeds(i: nat)
    | SendFails(i: nat)
    | ContextEnds(i: nat)
    | WatcherFires(i: nat)
    | Arrives(kind: Kind, oldest: nat)
    | ReaderSends
    | ReaderDrops
    | ReaderRemoves
    | Receives(i: nat)
    | Leaves(i: nat)
    | Close

  /** Request `i` is the one the map holds under its id. */
  predicate InMap(requests: seq<Request>, pending: map<nat, nat>, i: nat)
    requires i < |requests|
  {
    requests[i].id in pending && pending[requests[i].id] == i
  }

  /** `i` is a pending request that no other pending request precedes in creation time. */
  predicate Oldest(s: State, i: nat) {
    && i < |s.requests| && InMap(s.requests, s.pending, i)
    && forall id | id in s.pending && s.pending[id] < |s.requests| ::
         s.requests[i].createdAt <= s.requests[s.pending[id]].createdAt
  }

  predicate Enabled(s: State, e: Event) {
    match e
    case Allocate(_) => true
    case Store(i) => i < |s.requests| && s.requests[i].sender == Allocated
    case SendSucceeds(i) => i < |s.requests| && s.requests[i].sender == Stored
    case SendFails(i) => i < |s.requests| && s.requests[i].sender == Stored
    case ContextEnds(i) => i < |s.requests|
    case WatcherFires(i) => i < |s.requests| && s.requests[i].watching && s.requests[i].done
    case Arrives(kind, oldest) => s.reader.Idle? && (kind.Legacy? && s.pending != map[] ==> Oldest(s, oldest))
    case ReaderSends =>
      s.reader.Holding? && s.reader.request < |s.requests| && s.requests[s.reader.request].channel.None?
    case ReaderDrops => s.reader.Holding? && s.reader.request < |s.requests| && s.requests[s.reader.request].done
    case ReaderRemoves => s.reader.Removing? && s.reader.request < |s.requests|
    case Receives(i) => i < |s.requests| && s.requests[i].sender == Returned && s.requests[i].receiver == Waiting
                        && s.requests[i].channel.Some?
    case Leaves(i) => i < |s.requests| && s.requests[i].sender == Returned && s.requests[i].receiver == Waiting
                      && s.requests[i].done
    case Close => true
  }

  function WithRequest(s: State, i: nat, r: Request): State
    requires i < |s.requests|
  {
    s.(requests := s.requests[i := r])
  }

  /** Cancels and forgets whatever request the map holds under `id`. */
  function CancelRequest(s: State, id: nat): State {
    if id !in s.pending then s
    else
      var i := s.pending[id];
      var t := if i < |s.requests| then WithRequest(s, i, s.requests[i].(done := true)) else s;
      t.(pending := s.pending - {id})
  }

  function DeleteRequest(s: State, id: nat): State {
    s.(pending := s.pending - {id})
  }

  function AllocateRequest(s: State, createdAt: int): State {
    var id := (s.nextId + 1) % IDS;
    s.(nextId := id, requests := s.requests + [Request(id, createdAt, Allocated, None, false, false, Waiting)])
  }

  function StoreRequest(s: State, i: nat): State
    requires i < |s.requests|
  {
    var r := s.requests[i];
    WithRequest(s, i, r.(sender := Stored)).(pending := s.pending[r.id := i])
  }

  /** The lookup of an arriving response; with nobody to give it to, the manager closes it. */
  function LookUp(s: State, kind: Kind, oldest: nat): State {
    var m := s.arrived;
    var t := s.(arrived := m + 1);
    if kind.WithId? then
      if kind.id in s.pending then t.(reader := Holding(m, kind, s.pending[kind.id])) else t.(closed := s.closed + [m])
    else if s.pending != map[] then t.(reader := Holding(m, kind, oldest))
    else t.(closed := s.closed + [m])
  }

  /** Close cancels every request still in the map and empties it. */
  function CloseAll(s: State): State {
    s.(requests := seq(|s.requests|, i requires 0 <= i < |s.requests| =>
                     if InMap(s.requests, s.pending, i) then s.requests[i].(done := true) else s.requests[i]),
       pending := map[])
  }

  function Step(s: State, e: Event): State
    requires Enabled(s, e)
  {
    match e
    case Allocate(createdAt) => AllocateRequest(s, createdAt)
    case Store(i) => StoreRequest(s, i)
    case SendSucceeds(i) => WithRequest(s, i, s.requests[i].(sender := Returned, watching := true))
    case SendFails(i) => CancelRequest(WithRequest(s, i, s.requests[i].(sender := Failed)), s.requests[i].id)
    case ContextEnds(i) => WithRequest(s, i, s.requests[i].(done := true))
    case WatcherFires(i) => CancelRequest(WithRequest(s, i, s.requests[i].(watching := false)), s.requests[i].id)
    case Arrives(kind, oldest) => LookUp(s, kind, oldest)
    case ReaderSends =>
      var i := s.reader.request;
      WithRequest(s, i, s.requests[i].(channel := Some(s.reader.message)))
        .(reader := Removing(i), deliveries := s.deliveries + [Delivery(s.reader.message, s.reader.kind, i)])
    case ReaderDrops => s.(reader := Idle, closed := s.closed + [s.reader.message])
    case ReaderRemoves => DeleteRequest(s, s.requests[s.reader.request].id).(reader := Idle)
    case Receives(i) =>
      WithRequest(s, i, s.requests[i].(channel := None, receiver := Got(s.requests[i].channel.value)))
    case Leaves(i) => WithRequest(s, i, s.requests[i].(receiver := Left))
    case Close => CloseAll(s)
  }

  /** Runs, as the sequence of events taken from the initial state. */
  predicate Legal(es: seq<Event>)
    decreases |es|, 1
  {
    es == [] || (Legal(es[..|es| - 1]) && Enabled(After(es[..|es| - 1]), es[|es| - 1]))
  }

  function After(es: seq<Event>): State
    requires Legal(es)
    decreases |es|, 2
  {
    if es == [] then Initial else Step(After(es[..|es| - 1]), es[|es| - 1])
  }
}
