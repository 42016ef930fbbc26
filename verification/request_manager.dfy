/** The request manager as the object it is: a map of pending requests and a counter updated in place,
    each critical section proved to be one step of the request protocol. */
module RequestManagement {
  import opened Wrappers
  import opened RequestProtocol
  import opened RequestInvariant

  /** One in-flight request, shared by the sender, the reader, its watcher and its receiver. */
  class PendingRequest {
    const id: nat
    const createdAt: int
    ghost const index: nat
    var channel: Option<Message>
    var done: bool
    ghost var sender: Sender
    ghost var watching: bool
    ghost var receiver: Receiver

    constructor (id: nat, createdAt: int, ghost index: nat)
      ensures this.index == index && Now() == Request(id, createdAt, Allocated, None, false, false, Waiting)
    {
      this.id, this.createdAt, this.index := id, createdAt, index;
      channel, done := None, false;
      sender, watching, receiver := Allocated, false, Waiting;
    }

    ghost function Now(): Request
      reads this
    {
      Request(id, createdAt, sender, channel, done, watching, receiver)
    }

    /** Ends the request's context; ending it again changes nothing. */
    method Cancel()
      modifies `done
      ensures done
    {
      done := true;
    }
  }

  /** `model` is the protocol state the object stands for; Valid ties it to the real fields. */
  class RequestManager {
    var pendingReqs: map<nat, PendingRequest>
    var nextId: nat
    ghost var all: seq<PendingRequest>
    ghost var model: State

    ghost predicate Valid()
      reads this, all
    {
      && nextId == model.nextId && |all| == |model.requests|
      && (forall i | 0 <= i < |all| :: all[i].index == i && all[i].Now() == model.requests[i])
      && pendingReqs.Keys == model.pending.Keys
      && (forall id | id in pendingReqs :: Holds(id, pendingReqs[id]))
    }

    ghost predicate Holds(id: nat, req: PendingRequest)
      reads this
    {
      && req.id == id && req.index < |all| && all[req.index] == req
      && id in model.pending && model.pending[id] == req.index
    }

    constructor ()
      ensures Valid() && model == Initial && all == []
    {
      pendingReqs, nextId, all := map[], 0, [];
      model := Initial;
    }

    /** The atomic increment of the 32-bit counter and the creation of the request. */
    method Allocate(createdAt: int) returns (req: PendingRequest)
      requires Valid()
      modifies this
      ensures Valid() && model == AllocateRequest(old(model), createdAt)
      ensures nextId == (old(nextId) + 1) % 0x1_0000_0000 && req.id == nextId && req.createdAt == createdAt && !req.done
      ensures fresh(req) && all == old(all) + [req]
    {
      nextId := (nextId + 1) % IDS;
      req := new PendingRequest(nextId, createdAt, |all|);
      all := all + [req];
      model := AllocateRequest(model, createdAt);
    }

    method Store(req: PendingRequest)
      requires Valid() && req in all && req.sender == Allocated
      modifies this`pendingReqs, this`model, req`sender
      ensures Valid() && model == StoreRequest(old(model), req.index)
      ensures pendingReqs == old(pendingReqs)[req.id := req]
    {
      pendingReqs := pendingReqs[req.id := req];
      req.sender := Stored;
      model := StoreRequest(model, req.index);
    }

    /** Cancels and removes the request found under the id, if there is one. */
    method CancelRequest(id: nat)
      requires Valid()
      modifies this`pendingReqs, this`model, all`done
      ensures Valid() && model == RequestProtocol.CancelRequest(old(model), id)
      ensures pendingReqs == old(pendingReqs) - {id} && (id in old(pendingReqs) ==> old(pendingReqs)[id].done)
    {
      if id in pendingReqs {
        assert Holds(id, pendingReqs[id]);
        pendingReqs[id].Cancel();
        pendingReqs := pendingReqs - {id};
      }
      model := RequestProtocol.CancelRequest(model, id);
    }

    method DeleteRequest(id: nat)
      requires Valid()
      modifies this`pendingReqs, this`model
      ensures Valid() && model == RequestProtocol.DeleteRequest(old(model), id)
      ensures pendingReqs == old(pendingReqs) - {id}
    {
      pendingReqs := pendingReqs - {id};
      model := RequestProtocol.DeleteRequest(model, id);
    }

    /** The watcher, once the context of its request is done. */
    method CleanupRequest(req: PendingRequest)
      requires Valid() && req in all && req.watching && req.done
      modifies this`pendingReqs, this`model, all`done, req`watching
      ensures Valid() && Enabled(old(model), WatcherFires(req.index))
      ensures model == Step(old(model), WatcherFires(req.index))
    {
      req.watching := false;
      model := WithRequest(model, req.index, model.requests[req.index].(watching := false));
      CancelRequest(req.id);
    }

    /** The request of a response that carries an id. */
    method LookUpById(id: nat) returns (req: PendingRequest?)
      requires Valid()
      ensures req == null <==> id !in model.pending
      ensures req != null ==> Holds(id, req)
    {
      if id in pendingReqs {
        return pendingReqs[id];
      }
      return null;
    }

    /** Scans the map, in any order, for the request that was created first. */
    method LookUpOldest() returns (req: PendingRequest?)
      requires Valid()
      ensures req == null <==> model.pending == map[]
      ensures req != null ==> req in all && Oldest(model, req.index) && Holds(req.id, req)
    {
      req := null;
      var todo := pendingReqs.Keys;
      while todo != {}
        invariant todo <= pendingReqs.Keys
        invariant req == null ==> todo == pendingReqs.Keys
        invariant req != null ==> req.id in pendingReqs && pendingReqs[req.id] == req
        invariant req != null ==>
          forall id | id in pendingReqs.Keys - todo :: req.createdAt <= pendingReqs[id].createdAt
      {
        var id :| id in todo;
        assert Holds(id, pendingReqs[id]);
        if req == null || pendingReqs[id].createdAt < req.createdAt {
          req := pendingReqs[id];
        }
        todo := todo - {id};
      }
      if req != null {
        assert Holds(req.id, req);
        forall id | id in model.pending
          ensures model.requests[req.index].createdAt <= model.requests[model.pending[id]].createdAt
        {
          assert Holds(id, pendingReqs[id]);
        }
      } else {
        assert model.pending.Keys == {};
      }
    }

    /** The critical section of an arriving response: whom, if anyone, it is for. */
    method LookUp(kind: Kind) returns (req: PendingRequest?)
      requires Valid() && model.reader.Idle?
      modifies this`model
      ensures Valid()
      ensures
        var e := Arrives(kind, if req == null then 0 else req.index);
        Enabled(old(model), e) && model == Step(old(model), e)
      ensures req != null ==> req in all && model.reader == Holding(old(model).arrived, kind, req.index)
      ensures req == null ==> model.reader.Idle? && model.closed == old(model).closed + [old(model).arrived]
      ensures kind.WithId? ==> req == if kind.id in pendingReqs then pendingReqs[kind.id] else null
      ensures kind.Legacy? ==> (req == null <==> pendingReqs == map[])
      ensures kind.Legacy? && req != null ==>
        && req.id in pendingReqs && pendingReqs[req.id] == req
        && forall id | id in pendingReqs :: req.createdAt <= pendingReqs[id].createdAt
      ensures model.deliveries == old(model).deliveries && (req != null ==> model.closed == old(model).closed)
      ensures forall i | 0 <= i < |all| :: old(all[i].Now()) == all[i].Now()
    {
      match kind {
        case WithId(id) => req := LookUpById(id);
        case Legacy => req := LookUpOldest();
      }
      model := RequestProtocol.LookUp(model, kind, if req == null then 0 else req.index);
    }

    /** The send of the held message into the request's channel, which has room. */
    method Deliver(req: PendingRequest, message: Message)
      requires Valid() && model.reader.Holding? && model.reader.message == message
      requires req in all && model.reader.request == req.index && req.channel.None?
      modifies this`model, req`channel
      ensures Valid() && Enabled(old(model), ReaderSends) && model == Step(old(model), ReaderSends)
      ensures req.channel == Some(message)
    {
      req.channel := Some(message);
      model := Step(model, ReaderSends);
    }

    /** The context of the request was done: the manager closes the message itself. */
    ghost method CloseHeld()
      requires Valid() && Enabled(model, ReaderDrops)
      modifies this`model
      ensures Valid() && model == Step(old(model), ReaderDrops)
    {
      model := Step(model, ReaderDrops);
    }

    method RemoveDelivered(req: PendingRequest)
      requires Valid() && req in all && model.reader == Removing(req.index)
      modifies this`pendingReqs, this`model
      ensures Valid() && model == Step(old(model), ReaderRemoves)
      ensures pendingReqs == old(pendingReqs) - {req.id}
    {
      DeleteRequest(req.id);
      model := model.(reader := Idle);
    }

    /** The handling of one response with nothing else happening in between: by the invariant the
        channel has room, so the only alternative to delivery is a context that is already done. */
    method HandleResponse(message: Message, kind: Kind) returns (ghost req: PendingRequest?)
      requires Valid() && Inv(model) && |all| <= IDS && model.reader.Idle? && message == model.arrived
      modifies this, all
      ensures Valid() && Inv(model) && model.reader.Idle? && model.arrived == old(model).arrived + 1
      ensures all == old(all) && (req != null ==> req in old(all))
      // whom the response is for
      ensures kind.WithId? ==> req == if kind.id in old(pendingReqs) then old(pendingReqs)[kind.id] else null
      ensures kind.Legacy? ==> (req == null <==> old(pendingReqs) == map[])
      ensures kind.Legacy? && req != null ==>
        && req.id in old(pendingReqs) && old(pendingReqs)[req.id] == req
        && forall id | id in old(pendingReqs) :: req.createdAt <= old(pendingReqs)[id].createdAt
      // it is delivered to that request, which leaves the map; closed only if there is none or it is done
      ensures req == null ==> Closed(old(model), message)
      ensures req != null ==>
        || (&& model.deliveries == old(model).deliveries + [Delivery(message, kind, req.index)]
            && model.closed == old(model).closed
            && req.channel == Some(message) && pendingReqs == old(pendingReqs) - {req.id})
        || (old(req.done) && Closed(old(model), message))
    {
      hide IdsOk, PendingOk, ReaderOk, DeliveriesOk, NoneLost, OwnedOnce, Holds, Valid;
      var found := LookUp(kind);
      req := found;
      ghost var e := Arrives(kind, if found == null then 0 else found.index);
      StepKeepsInv(old(model), e);
      if found == null {
        return;
      }
      ghost var looked := model;
      ChannelHasRoom(found);
      var drop := false;
      if found.done {
        drop := *;   // both arms of the select are ready
      }
      if drop {
        CloseHeld();
        StepKeepsInv(looked, ReaderDrops);
      } else {
        DeliverAndRemove(found, message);
      }
    }

    ghost predicate Closed(before: State, message: Message)
      reads `model
    {
      model.closed == before.closed + [message] && model.deliveries == before.deliveries
    }

    method DeliverAndRemove(req: PendingRequest, message: Message)
      requires Valid() && Inv(model) && |all| <= IDS && model.reader.Holding? && model.reader.message == message
      requires req in all && model.reader.request == req.index && req.channel.None?
      modifies this`pendingReqs, this`model, req`channel
      ensures Valid() && Inv(model) && model.reader.Idle? && model.arrived == old(model).arrived
      ensures model.deliveries == old(model).deliveries + [Delivery(message, old(model).reader.kind, req.index)]
      ensures model.closed == old(model).closed && req.channel == Some(message)
      ensures pendingReqs == old(pendingReqs) - {req.id}
    {
      hide IdsOk, PendingOk, ReaderOk, DeliveriesOk, NoneLost, OwnedOnce, Holds, Valid;
      Deliver(req, message);
      StepKeepsInv(old(model), ReaderSends);
      ghost var sent := model;
      RemoveDelivered(req);
      StepKeepsInv(sent, ReaderRemoves);
    }

    /** Cancels every pending request, in any order, and empties the map. */
    method Close()
      requires Valid()
      modifies this`pendingReqs, this`model, all`done
      ensures Valid() && model == CloseAll(old(model))
      ensures pendingReqs == map[] && forall id | id in old(pendingReqs) :: old(pendingReqs)[id].done
    {
      ghost var s := model;
      var todo := pendingReqs.Keys;
      while todo != {}
        invariant todo <= pendingReqs.Keys && pendingReqs == old(pendingReqs) && model == s && |all| == |s.requests|
        invariant forall i | 0 <= i < |all| ::
            all[i].Now() == if InMap(s.requests, s.pending, i) && all[i].id !in todo
                            then s.requests[i].(done := true) else s.requests[i]
      {
        var id :| id in todo;
        assert old(Holds(id, pendingReqs[id]));
        pendingReqs[id].Cancel();
        todo := todo - {id};
      }
      pendingReqs := map[];
      model := CloseAll(model);
    }

    /** The request a message is held for has an empty channel. */
    lemma ChannelHasRoom(req: PendingRequest)
      requires Valid() && Inv(model) && model.reader.Holding? && req in all && model.reader.request == req.index
      ensures req.channel.None? && req.index < |model.requests| && model.requests[req.index] == req.Now()
    {}
  }
}
