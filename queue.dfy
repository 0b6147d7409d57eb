/** The coalescing write queue (internal/queue/queue.go).

    `ProcessQueue` is an event loop over a buffer: a request received from the
    producers is appended and, when the buffer reaches `buffSize`, flushed at
    once; a tick of the flush timer flushes whatever is buffered; cancellation
    ends the loop. A flush hands the buffered requests, in arrival order, to a
    worker. The worker groups its batch by (wallet, operation), sums each
    group's amounts, makes one store call per group and sends that call's
    error to every member of the group whose caller is listening. */
module Queue {
  import opened Common
  import Repo

  /** Identity of a request's result channel. */
  type Sink = nat

  /** `opRequest`. */
  datatype Request = Request(op: string, walletId: string, amount: Int64, result: Sink)

  /** The worker's grouping key. */
  datatype Key = Key(walletId: string, op: string)

  function KeyOf(r: Request): Key {
    Key(r.walletId, r.op)
  }

  // ---------------------------------------------------------------------
  // The ProcessQueue loop as a state machine
  // ---------------------------------------------------------------------

  /** What one iteration of the `select` in ProcessQueue reacts to. */
  datatype Event = Receive(req: Request) | Tick | Cancel

  /** The loop's state: its buffer, and whether it has returned. */
  datatype State = State(buff: seq<Request>, stopped: bool)

  /** One iteration of the loop. The second component is the batch handed to
      a new worker; `[]` means no worker was started. */
  function Step(buffSize: nat, s: State, e: Event): (r: (State, seq<Request>))
    // once the loop has returned, nothing happens any more
    ensures s.stopped ==> r == (s, [])
    // cancellation returns without flushing
    ensures !s.stopped && e.Cancel? ==> r == (State(s.buff, true), [])
    // no loss and no reorder: the batch followed by the new buffer is the old
    // buffer followed by the request received, if any
    ensures !s.stopped && !e.Cancel? ==>
      !r.0.stopped && r.1 + r.0.buff == s.buff + (if e.Receive? then [e.req] else [])
    // a batch always leaves the buffer empty
    ensures r.1 != [] ==> r.0.buff == []
    // a tick flushes everything; reaching buffSize flushes at once
    ensures !s.stopped && e.Tick? ==> r.1 == s.buff
    ensures !s.stopped && e.Receive? && |s.buff| + 1 >= buffSize ==> r.1 == s.buff + [e.req]
    ensures !s.stopped && e.Receive? && |s.buff| + 1 < buffSize ==> r.1 == []
    // between events the buffer holds fewer than buffSize requests
    ensures buffSize > 0 && |s.buff| < buffSize ==> |r.0.buff| < buffSize
  {
    if s.stopped then (s, [])
    else match e
      case Cancel => (State(s.buff, true), [])
      case Tick => (State([], false), s.buff)
      case Receive(req) =>
        var buff := s.buff + [req];
        if |buff| >= buffSize then (State([], false), buff) else (State(buff, false), [])
  }

  /** A run of the loop over a sequence of events: the final state and the
      batches handed to workers, in order. */
  function Run(buffSize: nat, s: State, events: seq<Event>): (r: (State, seq<seq<Request>>))
    // each event starts at most one worker
    ensures |r.1| <= |events|
    // a loop that has returned stays put
    ensures s.stopped ==> r == (s, [])
    decreases |events|
  {
    if events == [] then (s, [])
    else
      var prev := Run(buffSize, s, events[..|events| - 1]);
      var next := Step(buffSize, prev.0, events[|events| - 1]);
      (next.0, if next.1 == [] then prev.1 else prev.1 + [next.1])
  }

  /** The requests the events deliver to the loop, in order. */
  function Received(events: seq<Event>): seq<Request>
    decreases |events|
  {
    if events == [] then []
    else
      var e := events[|events| - 1];
      Received(events[..|events| - 1]) + (if e.Receive? then [e.req] else [])
  }

  function Flatten(batches: seq<seq<Request>>): seq<Request>
    decreases |batches|
  {
    if batches == [] then [] else Flatten(batches[..|batches| - 1]) + batches[|batches| - 1]
  }

  predicate NoCancel(events: seq<Event>) {
    forall i :: 0 <= i < |events| ==> !events[i].Cancel?
  }

  /** No loss, no reorder: while the loop runs, the flushed batches followed
      by the buffer are exactly the requests received, in arrival order. */
  lemma {:induction false} RunNoLoss(buffSize: nat, s: State, events: seq<Event>)
    requires !s.stopped && NoCancel(events)
    ensures var r := Run(buffSize, s, events);
      !r.0.stopped && Flatten(r.1) + r.0.buff == s.buff + Received(events)
    decreases |events|
  {
    if events != [] {
      var init := events[..|events| - 1];
      var e := events[|events| - 1];
      assert !e.Cancel? && NoCancel(init) by {
        assert events[|events| - 1] == e;
        forall i | 0 <= i < |init| ensures !init[i].Cancel? { assert init[i] == events[i]; }
      }
      RunNoLoss(buffSize, s, init);
      var prev := Run(buffSize, s, init);
      var extra := if e.Receive? then [e.req] else [];
      assert Received(events) == Received(init) + extra;
      FlushStep(buffSize, prev.0, e, prev.1);
      var next := Step(buffSize, prev.0, e);
      assert Run(buffSize, s, events) == (next.0, if next.1 == [] then prev.1 else prev.1 + [next.1]);
      assert Flatten(prev.1) + prev.0.buff + extra == s.buff + Received(init) + extra;
      assert s.buff + Received(init) + extra == s.buff + Received(events);
    }
  }

  /** One step of the no-loss argument. */
  lemma FlushStep(buffSize: nat, p: State, e: Event, batches: seq<seq<Request>>)
    requires !p.stopped && !e.Cancel?
    ensures var next := Step(buffSize, p, e);
      var bs := if next.1 == [] then batches else batches + [next.1];
      !next.0.stopped
      && Flatten(bs) + next.0.buff == Flatten(batches) + p.buff + (if e.Receive? then [e.req] else [])
  {
    var next := Step(buffSize, p, e);
    if next.1 != [] {
      assert (batches + [next.1])[..|batches|] == batches;
    }
  }

  /** Between events the buffer stays below buffSize, and every batch a
      worker receives holds between 1 and buffSize requests. */
  lemma {:induction false} RunBounds(buffSize: nat, s: State, events: seq<Event>)
    requires 0 < buffSize && |s.buff| < buffSize
    ensures var r := Run(buffSize, s, events);
      |r.0.buff| < buffSize
      && forall i :: 0 <= i < |r.1| ==> 0 < |r.1[i]| <= buffSize
    decreases |events|
  {
    if events != [] {
      RunBounds(buffSize, s, events[..|events| - 1]);
    }
  }

  /** After a cancellation the loop starts no worker and changes nothing:
      the requests left in the buffer never reach a worker. */
  lemma {:induction false} RunAfterCancel(buffSize: nat, s: State, events: seq<Event>, later: seq<Event>)
    requires !Run(buffSize, s, events).0.stopped
    ensures var before := Run(buffSize, s, events);
      Run(buffSize, s, events + [Cancel] + later) == (State(before.0.buff, true), before.1)
    decreases |later|
  {
    var before := Run(buffSize, s, events);
    var all := events + [Cancel] + later;
    if later == [] {
      assert all[..|all| - 1] == events && all[|all| - 1] == Cancel;
      assert Step(buffSize, before.0, Cancel) == (State(before.0.buff, true), []);
    } else {
      var init := events + [Cancel] + later[..|later| - 1];
      assert all[..|all| - 1] == init && all[|all| - 1] == later[|later| - 1];
      RunAfterCancel(buffSize, s, events, later[..|later| - 1]);
      var p := Run(buffSize, s, init);
      assert Step(buffSize, p.0, later[|later| - 1]) == (p.0, []);
    }
  }

  // ---------------------------------------------------------------------
  // Grouping a batch by (wallet, operation)
  // ---------------------------------------------------------------------

  /** The members of group `k`: the requests of the batch with that key, in
      batch order. */
  function Members(batch: seq<Request>, k: Key): (g: seq<Request>)
    ensures |g| <= |batch|
    ensures forall r :: r in g ==> r in batch && KeyOf(r) == k
    decreases |batch|
  {
    if batch == [] then []
    else
      var last := batch[|batch| - 1];
      Members(batch[..|batch| - 1], k) + (if KeyOf(last) == k then [last] else [])
  }

  function KeysOf(batch: seq<Request>): set<Key> {
    set r | r in batch :: KeyOf(r)
  }

  /** Grouping distributes over concatenation: a group lists the requests
      of an earlier part of the batch before those of a later part, so
      submission order is kept within every group. */
  lemma {:induction false} MembersAppend(a: seq<Request>, b: seq<Request>, k: Key)
    ensures Members(a + b, k) == Members(a, k) + Members(b, k)
    decreases |b|
  {
    if b == [] {
      assert a + b == a;
    } else {
      var b' := b[..|b| - 1];
      assert (a + b)[..|a + b| - 1] == a + b';
      MembersAppend(a, b', k);
    }
  }

  /** The groups partition the batch: each occurrence of a request is in
      the group of its own key, exactly once, and in no other group. */
  lemma {:induction false} MembersPartition(batch: seq<Request>, k: Key, r: Request)
    ensures multiset(Members(batch, k))[r] == if KeyOf(r) == k then multiset(batch)[r] else 0
    decreases |batch|
  {
    if batch != [] {
      var init := batch[..|batch| - 1];
      assert batch == init + [batch[|batch| - 1]];
      MembersPartition(init, k, r);
    }
  }

  lemma MembersSnoc(a: seq<Request>, r: Request, k: Key)
    ensures Members(a + [r], k) == Members(a, k) + (if KeyOf(r) == k then [r] else [])
  {
    assert (a + [r])[..|a|] == a;
  }

  lemma KeysOfSnoc(a: seq<Request>, r: Request)
    ensures KeysOf(a + [r]) == KeysOf(a) + {KeyOf(r)}
  {
    assert forall x :: x in a + [r] <==> x in a || x == r;
  }

  /** `byKey` groups the requests `done`: one non-empty entry per key,
      holding that key's members in order. */
  ghost predicate Grouped(byKey: map<Key, seq<Request>>, done: seq<Request>) {
    && byKey.Keys == KeysOf(done)
    && (forall k :: k in byKey ==> byKey[k] == Members(done, k) && byKey[k] != [])
    && (forall k :: k !in byKey ==> Members(done, k) == [])
  }

  /** The entry a request is appended to. */
  function Appended(byKey: map<Key, seq<Request>>, req: Request): map<Key, seq<Request>> {
    var k := KeyOf(req);
    byKey[k := (if k in byKey then byKey[k] else []) + [req]]
  }

  /** One iteration of the grouping loop keeps `byKey` a grouping. */
  lemma GroupStep(byKey: map<Key, seq<Request>>, done: seq<Request>, req: Request)
    requires Grouped(byKey, done)
    ensures Grouped(Appended(byKey, req), done + [req])
  {
    var next := Appended(byKey, req);
    KeysOfSnoc(done, req);
    forall k | k in next
      ensures next[k] == Members(done + [req], k) && next[k] != []
    {
      GroupEntryStep(byKey, done, req, k);
    }
    forall k | k !in next
      ensures Members(done + [req], k) == []
    {
      MembersSnoc(done, req, k);
    }
  }

  lemma GroupEntryStep(byKey: map<Key, seq<Request>>, done: seq<Request>, req: Request, k: Key)
    requires Grouped(byKey, done) && k in Appended(byKey, req)
    ensures Appended(byKey, req)[k] == Members(done + [req], k) && Appended(byKey, req)[k] != []
  {
    MembersSnoc(done, req, k);
    if k != KeyOf(req) {
      assert Appended(byKey, req)[k] == byKey[k];
    }
  }

  /** The loop that builds `byKey`. */
  method GroupByKey(batch: seq<Request>) returns (byKey: map<Key, seq<Request>>)
    ensures byKey.Keys == KeysOf(batch)
    ensures forall k :: k in byKey ==> byKey[k] == Members(batch, k) && byKey[k] != []
  {
    byKey := map[];
    for i := 0 to |batch|
      invariant Grouped(byKey, batch[..i])
    {
      var req := batch[i];
      var k := KeyOf(req);
      assert batch[..i + 1] == batch[..i] + [req];
      GroupStep(byKey, batch[..i], req);
      // byKey[key] = append(byKey[key], req), a missing key reading as nil
      var entry := if k in byKey then byKey[k] else [];
      byKey := byKey[k := entry + [req]];
    }
    assert batch[..|batch|] == batch;
  }

  // ---------------------------------------------------------------------
  // Summing a group
  // ---------------------------------------------------------------------

  function Sum(requests: seq<Request>): int
    decreases |requests|
  {
    if requests == [] then 0
    else Sum(requests[..|requests| - 1]) + requests[|requests| - 1].amount
  }

  /** A sum of positive amounts over a non-empty group is positive. */
  lemma {:induction false} SumPositive(requests: seq<Request>)
    requires requests != []
    requires forall i :: 0 <= i < |requests| ==> requests[i].amount > 0
    ensures Sum(requests) >= |requests|
    decreases |requests|
  {
    var init := requests[..|requests| - 1];
    if init != [] {
      SumPositive(init);
    }
  }

  /** The loop that computes `totalAmount`, with exact arithmetic. */
  method TotalAmount(requests: seq<Request>) returns (total: int)
    ensures total == Sum(requests)
  {
    total := 0;
    for i := 0 to |requests|
      invariant total == Sum(requests[..i])
    {
      assert requests[..i + 1][..i] == requests[..i];
      total := total + requests[i].amount;
    }
    assert requests[..|requests|] == requests;
  }

  /** Go's `totalAmount += req.Amount` on int64: the sum wraps around. */
  function Wrap(x: int): (r: Int64)
    ensures InInt64(x) ==> r == x
  {
    (x - MinInt64) % 0x1_0000_0000_0000_0000 + MinInt64
  }

  /** The total as the source computes it: a running int64 sum. */
  function WrappedTotal(requests: seq<Request>): (r: Int64)
    // the running int64 sum is the exact sum taken modulo 2^64
    ensures r == Wrap(Sum(requests))
    decreases |requests|
  {
    if requests == [] then 0
    else
      var init := requests[..|requests| - 1];
      WrapShift(Sum(init), requests[|requests| - 1].amount);
      Wrap(WrappedTotal(init) + requests[|requests| - 1].amount)
  }

  lemma WrapShift(x: int, y: int)
    ensures Wrap(Wrap(x) + y) == Wrap(x + y)
  {
    var m := 0x1_0000_0000_0000_0000;
    var q := (x - MinInt64) / m;
    assert Wrap(x) == x - q * m;
    assert Wrap(x) + y - MinInt64 == (x + y - MinInt64) - q * m;
  }

  /** Three positive deposits whose int64 total wraps to 1: the source
      would deposit 1 and report success to all three callers. */
  lemma WrappedTotalCounterexample()
    ensures var g := [Request("DEPOSIT", "w", MaxInt64, 0),
                      Request("DEPOSIT", "w", MaxInt64, 1),
                      Request("DEPOSIT", "w", 3, 2)];
      Sum(g) == 2 * MaxInt64 + 3 && WrappedTotal(g) == 1
  {
    var g := [Request("DEPOSIT", "w", MaxInt64, 0),
              Request("DEPOSIT", "w", MaxInt64, 1),
              Request("DEPOSIT", "w", 3, 2)];
    assert g[..2][..1] == g[..1];
    assert g[..1][..0] == [];
    assert g[..|g| - 1] == g[..2];
    assert Sum(g[..1]) == MaxInt64;
    assert Sum(g[..2]) == 2 * MaxInt64;
  }

  /** The corrected total: the exact sum when it fits in int64, otherwise
      no total at all. */
  function CheckedTotal(requests: seq<Request>): (r: Option<Int64>)
    ensures r.Some? <==> InInt64(Sum(requests))
    ensures r.Some? ==> r.value == Sum(requests) == WrappedTotal(requests)
  {
    if InInt64(Sum(requests)) then Some(Sum(requests)) else None
  }

  // ---------------------------------------------------------------------
  // The worker
  // ---------------------------------------------------------------------

  datatype RepoCall = DepositCall(walletId: string, amount: int) | WithdrawCall(walletId: string, amount: int)

  /** What happened to one group: its key, its total, the one store call it
      made (if any), and the error that call returned. */
  datatype GroupOutcome = GroupOutcome(key: Key, total: int, call: Option<RepoCall>, outcome: Outcome)

  /** One successful non-blocking send of an error on a result channel. */
  datatype Delivery = Delivery(result: Sink, outcome: Outcome)

  /** The store's table after a worker ran, the groups in the order they
      were processed, and every send that went through. */
  datatype WorkerRun = WorkerRun(table: Repo.Table, groups: seq<GroupOutcome>, deliveries: seq<Delivery>)

  /** The result channels of a group's members. */
  function ResultsOf(members: seq<Request>): set<Sink> {
    set m | m in members :: m.result
  }

  /** The `select` with a `default` branch: a member whose caller is not
      listening is skipped; every other member gets the group's outcome. */
  function Deliver(members: seq<Request>, o: Outcome, listening: set<Sink>): (ds: seq<Delivery>)
    ensures |ds| <= |members|
    decreases |members|
  {
    if members == [] then []
    else
      var last := members[|members| - 1];
      Deliver(members[..|members| - 1], o, listening)
        + (if last.result in listening then [Delivery(last.result, o)] else [])
  }

  /** Every send carries the group's outcome to a listening member of the
      group, and every listening member is sent it. */
  lemma {:induction false} DeliverSpec(members: seq<Request>, o: Outcome, listening: set<Sink>)
    ensures var ds := Deliver(members, o, listening);
      && (forall d :: d in ds ==> d.outcome == o && d.result in listening && d.result in ResultsOf(members))
      && (forall m :: m in members && m.result in listening ==> Delivery(m.result, o) in ds)
    decreases |members|
  {
    if members != [] {
      var init, last := members[..|members| - 1], members[|members| - 1];
      DeliverSpec(init, o, listening);
      var ds := Deliver(members, o, listening);
      var prev := Deliver(init, o, listening);
      assert ds == prev + (if last.result in listening then [Delivery(last.result, o)] else []);
      forall d | d in ds ensures d.outcome == o && d.result in listening && d.result in ResultsOf(members) {
        if d in prev {
          var m :| m in init && m.result == d.result;
          assert m in members;
        } else {
          assert last in members;
        }
      }
      forall m | m in members && m.result in listening ensures Delivery(m.result, o) in ds {
        if m != last {
          var j :| 0 <= j < |members| && members[j] == m;
          assert j < |init| && init[j] == m;
        }
      }
    }
  }

  /** The sending loop at the end of each group. */
  method DeliverAll(members: seq<Request>, o: Outcome, listening: set<Sink>) returns (sent: seq<Delivery>)
    ensures sent == Deliver(members, o, listening)
  {
    sent := [];
    for i := 0 to |members|
      invariant sent == Deliver(members[..i], o, listening)
    {
      assert members[..i + 1][..i] == members[..i];
      if members[i].result in listening {
        sent := sent + [Delivery(members[i].result, o)];
      }
    }
    assert members[..|members|] == members;
  }

  /** The `switch` on the operation: one store call for DEPOSIT or WITHDRAW
      with the group's total, none (and a nil error) for any other op. A
      total outside int64 fails the group without a call. */
  function Dispatch(t: Repo.Table, k: Key, total: int): (r: (Repo.Table, Option<RepoCall>, Outcome))
    ensures k.op == "DEPOSIT" && InInt64(total) ==>
      r.1 == Some(DepositCall(k.walletId, total))
      && Repo.Change(r.0, r.2) == Repo.ApplyDeposit(t, k.walletId, total)
    ensures k.op == "WITHDRAW" && InInt64(total) ==>
      r.1 == Some(WithdrawCall(k.walletId, total))
      && Repo.Change(r.0, r.2) == Repo.ApplyWithdraw(t, k.walletId, total)
    ensures (k.op == "DEPOSIT" || k.op == "WITHDRAW") && !InInt64(total) ==>
      r == (t, None, Fail(AmountOverflow))
    ensures k.op != "DEPOSIT" && k.op != "WITHDRAW" ==> r == (t, None, Ok)
  {
    if k.op != "DEPOSIT" && k.op != "WITHDRAW" then (t, None, Ok)
    else if !InInt64(total) then (t, None, Fail(AmountOverflow))
    else if k.op == "DEPOSIT" then
      var c := Repo.ApplyDeposit(t, k.walletId, total);
      (c.table, Some(DepositCall(k.walletId, total)), c.outcome)
    else
      var c := Repo.ApplyWithdraw(t, k.walletId, total);
      (c.table, Some(WithdrawCall(k.walletId, total)), c.outcome)
  }

  /** One iteration of the worker's loop over the groups. */
  function ProcessGroup(t: Repo.Table, batch: seq<Request>, k: Key, listening: set<Sink>): (r: WorkerRun)
    // one outcome, for this key, over the exact total of its members
    ensures |r.groups| == 1 && r.groups[0].key == k && r.groups[0].total == Sum(Members(batch, k))
    // at most one send per member
    ensures |r.deliveries| <= |Members(batch, k)|
  {
    var members := Members(batch, k);
    var total := Sum(members);
    var d := Dispatch(t, k, total);
    WorkerRun(d.0, [GroupOutcome(k, total, d.1, d.2)], Deliver(members, d.2, listening))
  }

  /** The worker over the groups taken in the order `order`. */
  function RunGroups(t: Repo.Table, batch: seq<Request>, order: seq<Key>, listening: set<Sink>): (r: WorkerRun)
    // one outcome per key taken
    ensures |r.groups| == |order|
    decreases |order|
  {
    if order == [] then WorkerRun(t, [], [])
    else
      var prev := RunGroups(t, batch, order[..|order| - 1], listening);
      var g := ProcessGroup(prev.table, batch, order[|order| - 1], listening);
      WorkerRun(g.table, prev.groups + g.groups, prev.deliveries + g.deliveries)
  }

  /** A worker over one key is that key's group alone. */
  lemma RunGroupsSingle(t: Repo.Table, batch: seq<Request>, k: Key, listening: set<Sink>)
    ensures RunGroups(t, batch, [k], listening) == ProcessGroup(t, batch, k, listening)
  {
    assert [k][..0] == [];
    var g := ProcessGroup(t, batch, k, listening);
    assert [] + g.groups == g.groups && [] + g.deliveries == g.deliveries;
  }

  /** Go's map iteration visits the keys of `byKey` once each, in an order it
      leaves unspecified: `order` is any such enumeration. */
  predicate IsEnumeration(order: seq<Key>, keys: set<Key>) {
    && (forall i, j :: 0 <= i < j < |order| ==> order[i] != order[j])
    && (set k | k in order) == keys
  }

  /** An enumeration lists each key exactly once: the worker processes as
      many groups as the batch has distinct (wallet, operation) keys. */
  lemma {:induction false} EnumerationSize(order: seq<Key>, keys: set<Key>)
    requires IsEnumeration(order, keys)
    ensures |order| == |keys|
    decreases |order|
  {
    if order != [] {
      var init, last := order[..|order| - 1], order[|order| - 1];
      assert (set k | k in init) == keys - {last} by {
        forall k | k in init ensures k != last {
          var a :| 0 <= a < |init| && init[a] == k;
          assert order[a] == k;
        }
        forall k | k in keys && k != last ensures k in init {
          var a :| 0 <= a < |order| && order[a] == k;
          assert a != |order| - 1;
          assert init[a] == k;
        }
      }
      assert IsEnumeration(init, keys - {last}) by {
        forall i, j | 0 <= i < j < |init| ensures init[i] != init[j] {
          assert init[i] == order[i] && init[j] == order[j];
        }
      }
      EnumerationSize(init, keys - {last});
    }
  }

  /** One group per key, in the processing order, each with the sum of its
      members' amounts; a call, when there is one, goes to the group's
      wallet with exactly that sum. */
  lemma {:induction false} RunGroupsShape(t: Repo.Table, batch: seq<Request>, order: seq<Key>, listening: set<Sink>)
    ensures var w := RunGroups(t, batch, order, listening);
      |w.groups| == |order|
      && forall i :: 0 <= i < |order| ==>
        && w.groups[i].key == order[i]
        && w.groups[i].total == Sum(Members(batch, order[i]))
        && (w.groups[i].call.Some? ==>
              w.groups[i].call.value.walletId == order[i].walletId
              && w.groups[i].call.value.amount == w.groups[i].total)
        && (w.groups[i].call.Some? <==>
              (order[i].op == "DEPOSIT" || order[i].op == "WITHDRAW") && InInt64(w.groups[i].total))
    decreases |order|
  {
    if order != [] {
      var init := order[..|order| - 1];
      RunGroupsShape(t, batch, init, listening);
      var prev := RunGroups(t, batch, init, listening);
      var g := ProcessGroup(prev.table, batch, order[|order| - 1], listening);
      var w := RunGroups(t, batch, order, listening);
      assert w.groups == prev.groups + g.groups;
      assert forall i :: 0 <= i < |init| ==> w.groups[i] == prev.groups[i] && order[i] == init[i];
      assert w.groups[|init|] == g.groups[0];
    }
  }

  /** The worker keeps every balance non-negative, creates and deletes no
      wallet, and leaves untouched every wallet no group is keyed on. */
  lemma {:induction false} RunGroupsLedger(t: Repo.Table, batch: seq<Request>, order: seq<Key>, listening: set<Sink>)
    requires Repo.NonNegative(t)
    ensures var w := RunGroups(t, batch, order, listening);
      Repo.NonNegative(w.table) && w.table.Keys == t.Keys
      && forall id :: id in t && (forall i :: 0 <= i < |order| ==> order[i].walletId != id) ==>
           w.table[id] == t[id]
    decreases |order|
  {
    if order != [] {
      var init := order[..|order| - 1];
      RunGroupsLedger(t, batch, init, listening);
      var prev := RunGroups(t, batch, init, listening);
      var k := order[|order| - 1];
      var total := Sum(Members(batch, k));
      var d := Dispatch(prev.table, k, total);
      assert RunGroups(t, batch, order, listening).table == d.0;
      Repo.WritesPreserveLedger(prev.table, k.walletId, total);
      assert d.0 == prev.table
        || d.0 == Repo.ApplyDeposit(prev.table, k.walletId, total).table
        || d.0 == Repo.ApplyWithdraw(prev.table, k.walletId, total).table;
      forall id | id in t && (forall i :: 0 <= i < |order| ==> order[i].walletId != id)
        ensures RunGroups(t, batch, order, listening).table[id] == t[id]
      {
        assert forall i :: 0 <= i < |init| ==> init[i] == order[i];
        assert k.walletId != id by { assert order[|order| - 1] == k; }
      }
    }
  }

  /** A delivery to a sink never comes from a group whose members do not
      use that sink. */
  lemma ProcessGroupDeliveryOrigin(t: Repo.Table, batch: seq<Request>, k: Key, listening: set<Sink>, d: Delivery)
    requires d in ProcessGroup(t, batch, k, listening).deliveries
    ensures var g := ProcessGroup(t, batch, k, listening);
      |g.groups| == 1 && d.outcome == g.groups[0].outcome
      && d.result in listening && d.result in ResultsOf(Members(batch, k))
  {
    DeliverSpec(Members(batch, k), ProcessGroup(t, batch, k, listening).groups[0].outcome, listening);
  }

  lemma {:induction false} DeliveriesComeFromGroups(t: Repo.Table, batch: seq<Request>, order: seq<Key>, listening: set<Sink>, d: Delivery)
    requires d in RunGroups(t, batch, order, listening).deliveries
    ensures |RunGroups(t, batch, order, listening).groups| == |order|
    ensures exists i :: 0 <= i < |order| && d.result in ResultsOf(Members(batch, order[i]))
                        && d.outcome == RunGroups(t, batch, order, listening).groups[i].outcome
    decreases |order|
  {
    var init := order[..|order| - 1];
    var prev := RunGroups(t, batch, init, listening);
    var k := order[|order| - 1];
    var g := ProcessGroup(prev.table, batch, k, listening);
    var w := RunGroups(t, batch, order, listening);
    assert w.groups == prev.groups + g.groups && w.deliveries == prev.deliveries + g.deliveries;
    if d in prev.deliveries {
      DeliveriesComeFromGroups(t, batch, init, listening, d);
      var i :| 0 <= i < |init| && d.result in ResultsOf(Members(batch, init[i]))
               && d.outcome == prev.groups[i].outcome;
      assert w.groups[i] == prev.groups[i] && init[i] == order[i];
    } else {
      ProcessGroupDeliveryOrigin(prev.table, batch, k, listening, d);
      assert w.groups[|order| - 1] == g.groups[0];
    }
  }

  predicate UniqueResults(batch: seq<Request>) {
    forall i, j :: 0 <= i < j < |batch| ==> batch[i].result != batch[j].result
  }

  /** With distinct result channels, a channel identifies its request. */
  lemma UniqueResultsSameRequest(batch: seq<Request>, m: Request, m': Request)
    requires UniqueResults(batch) && m in batch && m' in batch && m.result == m'.result
    ensures m == m'
  {
    var a :| 0 <= a < |batch| && batch[a] == m;
    var b :| 0 <= b < |batch| && batch[b] == m';
    if a != b {
      assert false;
    }
  }

  /** The result a member receives is its group's outcome: a listening
      member of group i receives exactly outcome i, and every send on its
      result channel carries that outcome. */
  lemma DeliveredOutcomeIsGroupOutcome(t: Repo.Table, batch: seq<Request>, order: seq<Key>,
                                       listening: set<Sink>, i: nat, m: Request)
    requires UniqueResults(batch) && IsEnumeration(order, KeysOf(batch))
    requires i < |order| && m in Members(batch, order[i])
    ensures |RunGroups(t, batch, order, listening).groups| == |order|
    ensures var w := RunGroups(t, batch, order, listening);
      (m.result in listening ==> Delivery(m.result, w.groups[i].outcome) in w.deliveries)
      && forall d :: d in w.deliveries && d.result == m.result ==> d.outcome == w.groups[i].outcome
  {
    var w := RunGroups(t, batch, order, listening);
    RunGroupsShape(t, batch, order, listening);
    if m.result in listening {
      DeliveredToMember(t, batch, order, listening, i, m);
    }
    forall d | d in w.deliveries && d.result == m.result
      ensures d.outcome == w.groups[i].outcome
    {
      DeliveriesComeFromGroups(t, batch, order, listening, d);
      var j :| 0 <= j < |order| && d.result in ResultsOf(Members(batch, order[j]))
               && d.outcome == w.groups[j].outcome;
      var m' :| m' in Members(batch, order[j]) && m'.result == d.result;
      UniqueResultsSameRequest(batch, m, m');
      assert order[i] == order[j];
      if i != j {
        assert false;
      }
    }
  }

  /** Within one group, every listening member is sent the group's outcome. */
  lemma ProcessGroupDelivers(t: Repo.Table, batch: seq<Request>, k: Key, listening: set<Sink>, m: Request)
    requires m in Members(batch, k) && m.result in listening
    ensures var g := ProcessGroup(t, batch, k, listening);
      |g.groups| == 1 && Delivery(m.result, g.groups[0].outcome) in g.deliveries
  {
    DeliverSpec(Members(batch, k), ProcessGroup(t, batch, k, listening).groups[0].outcome, listening);
  }

  /** Every listening member of group i is sent group i's outcome. */
  lemma {:induction false} DeliveredToMember(t: Repo.Table, batch: seq<Request>, order: seq<Key>,
                                             listening: set<Sink>, i: nat, m: Request)
    requires i < |order| && m in Members(batch, order[i]) && m.result in listening
    ensures var w := RunGroups(t, batch, order, listening);
      |w.groups| == |order| && Delivery(m.result, w.groups[i].outcome) in w.deliveries
    decreases |order|
  {
    var init := order[..|order| - 1];
    var prev := RunGroups(t, batch, init, listening);
    var g := ProcessGroup(prev.table, batch, order[|order| - 1], listening);
    var w := RunGroups(t, batch, order, listening);
    assert w.groups == prev.groups + g.groups && w.deliveries == prev.deliveries + g.deliveries;
    var x := Delivery(m.result, w.groups[i].outcome);
    if i < |init| {
      assert init[i] == order[i];
      DeliveredToMember(t, batch, init, listening, i, m);
      assert w.groups[i] == prev.groups[i];
      assert x in prev.deliveries;
    } else {
      assert i == |order| - 1;
      ProcessGroupDelivers(prev.table, batch, order[|order| - 1], listening, m);
      assert w.groups[i] == g.groups[0];
      assert x == Delivery(m.result, g.groups[0].outcome);
    }
    assert x in w.deliveries;
  }

  // ---------------------------------------------------------------------
  // The queue object
  // ---------------------------------------------------------------------

  class Queue {
    const walletRepo: Repo.WalletRepo
    const buffSize: nat
    /** The ticker's period; ticks arrive as `Tick` events. */
    const flushPeriod: int
    /** ProcessQueue's local buffer. */
    var buff: seq<Request>
    /** Whether ProcessQueue has returned. */
    var stopped: bool

    ghost predicate Valid()
      reads this
    {
      0 < buffSize && |buff| < buffSize
    }

    function Snapshot(): State
      reads this
    {
      State(buff, stopped)
    }

    /** `NewQueue`; its one caller passes a buffSize that the configuration
        check has already found positive. */
    constructor (walletRepo: Repo.WalletRepo, buffSize: nat, flushPeriod: int)
      requires 0 < buffSize
      ensures Valid()
      ensures this.walletRepo == walletRepo && this.buffSize == buffSize && this.flushPeriod == flushPeriod
      ensures buff == [] && !stopped
    {
      this.walletRepo := walletRepo;
      this.buffSize := buffSize;
      this.flushPeriod := flushPeriod;
      buff := [];
      stopped := false;
    }

    /** The `flush` closure: an empty buffer starts no worker; otherwise
        the buffer is copied out as the batch and truncated. */
    method Flush() returns (batch: seq<Request>)
      modifies this`buff
      ensures batch == old(buff) && buff == []
    {
      if |buff| == 0 {
        return [];
      }
      batch := buff;
      buff := buff[..0];
    }

    /** `Add`, taken together with the loop's receive: the request is
        appended to the buffer, which is flushed once it reaches buffSize. */
    method Add(req: Request) returns (batch: seq<Request>)
      requires Valid()
      modifies this
      ensures Valid()
      ensures (Snapshot(), batch) == Step(buffSize, old(Snapshot()), Receive(req))
    {
      if stopped {
        return [];
      }
      buff := buff + [req];
      batch := [];
      if |buff| >= buffSize {
        batch := Flush();
      }
    }

    /** A tick of the flush timer. */
    method Tick() returns (batch: seq<Request>)
      requires Valid()
      modifies this
      ensures Valid()
      ensures (Snapshot(), batch) == Step(buffSize, old(Snapshot()), Event.Tick)
    {
      if stopped {
        return [];
      }
      batch := Flush();
    }

    /** Cancellation of the loop's context: it returns without flushing. */
    method Cancel()
      requires Valid()
      modifies this
      ensures Valid()
      ensures (Snapshot(), []) == Step(buffSize, old(Snapshot()), Event.Cancel)
    {
      stopped := true;
    }

    /** `worker`: groups the batch, makes one store call per group in the
        order `order`, and sends each group's outcome to its listening
        members. */
    method Worker(batch: seq<Request>, order: seq<Key>, listening: set<Sink>)
      returns (groups: seq<GroupOutcome>, deliveries: seq<Delivery>)
      requires walletRepo.Valid()
      requires IsEnumeration(order, KeysOf(batch))
      modifies walletRepo
      ensures walletRepo.Valid()
      ensures WorkerRun(walletRepo.wallets, groups, deliveries)
        == RunGroups(old(walletRepo.wallets), batch, order, listening)
    {
      groups, deliveries := [], [];
      if |batch| == 0 {
        assert KeysOf(batch) == {};
        EnumerationSize(order, KeysOf(batch));
        return;
      }
      var byKey := GroupByKey(batch);
      for j := 0 to |order|
        invariant walletRepo.Valid()
        invariant WorkerRun(walletRepo.wallets, groups, deliveries)
          == RunGroups(old(walletRepo.wallets), batch, order[..j], listening)
      {
        var k := order[j];
        assert k in (set k' | k' in order);
        ghost var prev := RunGroups(old(walletRepo.wallets), batch, order[..j], listening);
        assert order[..j + 1][..j] == order[..j];
        assert RunGroups(old(walletRepo.wallets), batch, order[..j + 1], listening)
          == var g := ProcessGroup(prev.table, batch, k, listening);
             WorkerRun(g.table, prev.groups + g.groups, prev.deliveries + g.deliveries);
        var requests := byKey[k];
        var total := TotalAmount(requests);
        var err := Ok;
        var call := None;
        if k.op == "DEPOSIT" || k.op == "WITHDRAW" {
          if !InInt64(total) {
            err := Fail(AmountOverflow);
          } else if k.op == "DEPOSIT" {
            err := walletRepo.Deposit(k.walletId, total);
            call := Some(DepositCall(k.walletId, total));
          } else {
            err := walletRepo.Withdraw(k.walletId, total);
            call := Some(WithdrawCall(k.walletId, total));
          }
        }
        var sent := DeliverAll(requests, err, listening);
        assert Dispatch(prev.table, k, Sum(requests)) == (walletRepo.wallets, call, err);
        groups := groups + [GroupOutcome(k, total, call, err)];
        deliveries := deliveries + sent;
      }
      assert order[..|order|] == order;
    }
  }
}
