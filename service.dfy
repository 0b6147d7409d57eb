/** The service façade (internal/service/wallet.go): writes are dispatched
    on the operation string and submitted to the queue, reads go straight
    to the store. */
module Service {
  import opened Common
  import Repo
  import Queue
  import Dto

  /** What `UpdateBalance` does before it blocks on its result channel:
      either it submitted a request on channel `sink` (and the queue's loop
      may have flushed `batch` to a worker), or it returned an error at
      once. */
  datatype Submission = Submitted(sink: Queue.Sink, batch: seq<Queue.Request>) | Rejected(error: Error)

  /** Where the operation switch sends a call. */
  datatype Result = Submit(req: Queue.Request) | Reject(error: Error)

  /** The `switch` on the operation type: the request that is submitted for
      DEPOSIT and WITHDRAW, and the error returned for anything else. */
  function Route(walletId: string, op: string, amount: Int64, sink: Queue.Sink): (r: Result)
    ensures r.Submit? <==> op == "DEPOSIT" || op == "WITHDRAW"
    ensures r.Submit? ==> r.req.op == op && r.req.walletId == walletId
                          && r.req.amount == amount && r.req.result == sink
    ensures r.Reject? ==> r.error == UnknownOperationType(op)
                          && r.error.Message() == "unknown operation type: " + op
  {
    if op == "DEPOSIT" then Submit(Queue.Request("DEPOSIT", walletId, amount, sink))
    else if op == "WITHDRAW" then Submit(Queue.Request("WITHDRAW", walletId, amount, sink))
    else Reject(UnknownOperationType(op))
  }

  /** A body that passed validation is always submitted. */
  lemma ValidatedRequestIsSubmitted(body: Dto.UpdateWalletBalanceRequest, sink: Queue.Sink)
    requires body.Validate() == None
    ensures var r := Route(body.walletId, body.operationType, body.amount, sink);
      r.Submit? && r.req.amount > 0 && r.req.walletId != ""
  {
  }

  /** `<-resultChan`: the caller receives the first send on its channel. */
  function Await(deliveries: seq<Queue.Delivery>, sink: Queue.Sink): (r: Option<Outcome>)
    ensures r.Some? <==> exists d :: d in deliveries && d.result == sink
    ensures r.Some? ==> Queue.Delivery(sink, r.value) in deliveries
    decreases |deliveries|
  {
    if deliveries == [] then None
    else if deliveries[0].result == sink then Some(deliveries[0].outcome)
    else Await(deliveries[1..], sink)
  }

  /** The error a listening caller receives is the one its group's store
      call returned, unchanged. */
  lemma AwaitGetsGroupOutcome(t: Repo.Table, batch: seq<Queue.Request>, order: seq<Queue.Key>,
                              listening: set<Queue.Sink>, i: nat, m: Queue.Request)
    requires Queue.UniqueResults(batch) && Queue.IsEnumeration(order, Queue.KeysOf(batch))
    requires m in batch && m.result in listening
    requires i < |order| && order[i] == Queue.KeyOf(m)
    ensures var w := Queue.RunGroups(t, batch, order, listening);
      |w.groups| == |order| && Await(w.deliveries, m.result) == Some(w.groups[i].outcome)
  {
    Queue.MembersPartition(batch, order[i], m);
    assert m in multiset(Queue.Members(batch, order[i]));
    Queue.DeliveredOutcomeIsGroupOutcome(t, batch, order, listening, i, m);
  }

  /** A caller that is not yet receiving when its group is sent is skipped,
      and nothing is ever sent to it afterwards. */
  lemma NotListeningGetsNothing(t: Repo.Table, batch: seq<Queue.Request>, order: seq<Queue.Key>,
                                listening: set<Queue.Sink>, sink: Queue.Sink)
    requires sink !in listening
    ensures Await(Queue.RunGroups(t, batch, order, listening).deliveries, sink) == None
  {
    var w := Queue.RunGroups(t, batch, order, listening);
    forall d | d in w.deliveries ensures d.result in listening {
      DeliveryIsListening(t, batch, order, listening, d);
    }
  }

  lemma {:induction false} DeliveryIsListening(t: Repo.Table, batch: seq<Queue.Request>, order: seq<Queue.Key>,
                                               listening: set<Queue.Sink>, d: Queue.Delivery)
    requires d in Queue.RunGroups(t, batch, order, listening).deliveries
    ensures d.result in listening
    decreases |order|
  {
    var init := order[..|order| - 1];
    var prev := Queue.RunGroups(t, batch, init, listening);
    if d in prev.deliveries {
      DeliveryIsListening(t, batch, init, listening, d);
    } else {
      Queue.ProcessGroupDeliveryOrigin(prev.table, batch, order[|order| - 1], listening, d);
    }
  }

  /** A request alone in its batch receives exactly the store's own answer
      to its operation: "wallet not found", "insufficient balance" and
      success reach the caller as the store reported them. */
  lemma SoloRequestGetsStoreOutcome(t: Repo.Table, req: Queue.Request, listening: set<Queue.Sink>)
    requires req.op == "DEPOSIT" || req.op == "WITHDRAW"
    requires req.result in listening
    ensures var w := Queue.RunGroups(t, [req], [Queue.KeyOf(req)], listening);
      Await(w.deliveries, req.result)
        == Some(if req.op == "DEPOSIT" then Repo.ApplyDeposit(t, req.walletId, req.amount).outcome
                else Repo.ApplyWithdraw(t, req.walletId, req.amount).outcome)
  {
    var batch := [req];
    var k := Queue.KeyOf(req);
    var w := Queue.RunGroups(t, batch, [k], listening);
    assert Await(w.deliveries, req.result) == Some(w.groups[0].outcome) by {
      assert Queue.KeysOf(batch) == {k};
      assert Queue.IsEnumeration([k], Queue.KeysOf(batch)) by {
        assert (set x | x in [k]) == {k};
      }
      AwaitGetsGroupOutcome(t, batch, [k], listening, 0, req);
    }
    assert w.groups[0].outcome == Queue.Dispatch(t, k, req.amount).2 by {
      assert Queue.Members(batch, k) == [req] by {
        assert batch[..0] == [];
      }
      assert Queue.Sum([req]) == req.amount by {
        assert [req][..0] == [];
      }
      Queue.RunGroupsSingle(t, batch, k, listening);
    }
  }

  class WalletService {
    const queue: Queue.Queue
    const repo: Repo.WalletRepo
    /** Each call makes a fresh result channel; channels are numbered. */
    var nextSink: nat

    /** Every buffered request waits on a channel this service made, and no
        two of them on the same one. */
    ghost predicate Valid()
      reads this, queue
    {
      && queue.Valid()
      && (forall i :: 0 <= i < |queue.buff| ==> queue.buff[i].result < nextSink)
      && Queue.UniqueResults(queue.buff)
    }

    /** `NewWalletService`, over the queue `NewQueue` has just made. */
    constructor (queue: Queue.Queue, repo: Repo.WalletRepo)
      requires queue.Valid() && queue.buff == []
      ensures Valid() && this.queue == queue && this.repo == repo && nextSink == 0
    {
      this.queue := queue;
      this.repo := repo;
      nextSink := 0;
    }

    /** `UpdateBalance` up to its wait: DEPOSIT and WITHDRAW submit exactly
        one request with that operation, wallet and amount on a fresh
        channel; any other operation is refused and submits nothing. The
        error it then returns is `Await` of that channel over the worker's
        sends. */
    method UpdateBalance(walletId: string, operationType: string, amount: Int64) returns (r: Submission)
      requires Valid()
      modifies this, queue
      ensures Valid()
      ensures var route := Route(walletId, operationType, amount, old(nextSink));
        if route.Submit? then
          && r.Submitted? && r.sink == old(nextSink) && nextSink == old(nextSink) + 1
          && (queue.Snapshot(), r.batch) == Queue.Step(queue.buffSize, old(queue.Snapshot()), Queue.Receive(route.req))
        else
          && r == Rejected(route.error) && nextSink == old(nextSink)
          && queue.Snapshot() == old(queue.Snapshot())
      // a batch this call flushes waits on distinct channels, as the
      // worker's replies need
      ensures r.Submitted? ==> Queue.UniqueResults(r.batch)
    {
      var sink := nextSink;
      if operationType == "DEPOSIT" {
        var req := Queue.Request("DEPOSIT", walletId, amount, sink);
        ReceiveKeepsChannels(queue.buffSize, queue.Snapshot(), req);
        var batch := queue.Add(req);
        nextSink := nextSink + 1;
        r := Submitted(sink, batch);
      } else if operationType == "WITHDRAW" {
        var req := Queue.Request("WITHDRAW", walletId, amount, sink);
        ReceiveKeepsChannels(queue.buffSize, queue.Snapshot(), req);
        var batch := queue.Add(req);
        nextSink := nextSink + 1;
        r := Submitted(sink, batch);
      } else {
        r := Rejected(UnknownOperationType(operationType));
      }
    }

    /** Receiving a request on a channel newer than every buffered one
        keeps the buffer's channels distinct and below the next number, and
        so are the channels of any batch the receive flushes. */
    static lemma ReceiveKeepsChannels(buffSize: nat, s: Queue.State, req: Queue.Request)
      requires forall i :: 0 <= i < |s.buff| ==> s.buff[i].result < req.result
      requires Queue.UniqueResults(s.buff)
      ensures var r := Queue.Step(buffSize, s, Queue.Receive(req));
        && (forall i :: 0 <= i < |r.0.buff| ==> r.0.buff[i].result < req.result + 1)
        && Queue.UniqueResults(r.0.buff) && Queue.UniqueResults(r.1)
    {
      FreshSinkKeepsUnique(s.buff, req);
    }

    /** A request on a channel newer than every buffered one keeps the
        buffer's channels distinct and below the next number. */
    static lemma FreshSinkKeepsUnique(buff: seq<Queue.Request>, req: Queue.Request)
      requires forall i :: 0 <= i < |buff| ==> buff[i].result < req.result
      requires Queue.UniqueResults(buff)
      ensures forall i :: 0 <= i < |buff + [req]| ==> (buff + [req])[i].result < req.result + 1
      ensures Queue.UniqueResults(buff + [req])
    {
      var b := buff + [req];
      forall i, j | 0 <= i < j < |b| ensures b[i].result != b[j].result {
        if j < |buff| {
          assert b[i] == buff[i] && b[j] == buff[j];
        } else {
          assert b[i] == buff[i] && b[j] == req;
        }
      }
    }

    /** `GetBalance`: exactly the store's answer. */
    method GetBalance(walletId: string) returns (balance: int, err: Outcome)
      ensures err == Ok
      ensures balance == if walletId in repo.wallets then repo.wallets[walletId] else 0
    {
      balance, err := repo.GetBalance(walletId);
    }
  }
}
