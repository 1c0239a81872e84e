/// The dispatchers as the objects the producer stage holds: each method computes the value function of
/// the same name.  Consumer references are left out; a batch is addressed by its subscription tag.

module DispatcherClasses {
  import opened Basics
  import opened Dispatch
  import opened Broadcast
  import opened Partition
  import opened Dispatchers

  class DemandDispatcher {
    var order: seq<Tag>
    var demand: map<Tag, int>

    ghost function Subs(): Subscribers reads this { Subscribers(order, demand) }

    ghost predicate Valid() reads this { Subs().Valid() }

    constructor ()
      ensures Valid() && Subs() == Subscribers([], map[])
    {
      order, demand := [], map[];
    }

    method Subscribe(t: Tag)
      requires Valid()
      modifies this
      ensures Valid() && Subs() == old(Subs()).Set(t, 0)
    {
      SetValid(Subs(), t, 0);
      if t !in demand { order := order + [t]; }
      demand := demand[t := 0];
    }

    method Cancel(t: Tag)
      requires Valid()
      modifies this
      ensures Valid() && Subs() == old(Subs()).Delete(t)
    {
      DeleteValid(Subs(), t);
      order, demand := Without(order, t), demand - {t};
    }

    method TotalDemand() returns (total: int)
      requires Valid()
      ensures total == Subs().Total()
    {
      total := 0;
      for i := 0 to |order|
        invariant total + SumOver(order[i..], Subs()) == Subs().Total()
      {
        assert order[i] in order;
        assert order[i..][1..] == order[i + 1..];
        total := total + demand[order[i]];
      }
    }

    method Ask(t: Tag, n: nat) returns (total: int)
      requires Valid()
      modifies this
      ensures Valid()
      ensures Subs() == if t in old(demand) then old(Subs()).Set(t, old(Subs()).Get(t) + n) else old(Subs())
      ensures (OnDemand(Subs()), total) == OnDemand(old(Subs())).Ask(t, n)
    {
      if t in demand {
        SetValid(Subs(), t, demand[t] + n);
        demand := demand[t := demand[t] + n];
      }
      total := TotalDemand();
    }

    method FindBest() returns (best: Option<Tag>)
      requires Valid()
      ensures best == Best(order, Subs())
    {
      best := None;
      var bestDemand := 0;
      for i := 0 to |order|
        invariant best == Best(order[..i], Subs())
        invariant bestDemand == if best.Some? then Subs().Get(best.value) else 0
      {
        assert order[i] in order;
        assert order[..i + 1][..i] == order[..i];
        if demand[order[i]] > bestDemand {
          best, bestDemand := Some(order[i]), demand[order[i]];
        }
      }
      assert order[..|order|] == order;
    }

    method Dispatch(events: seq<Event>) returns (dispatched: seq<Batch>, remaining: seq<Event>)
      requires Valid()
      modifies this
      ensures Valid() && Outcome(dispatched, Subs(), remaining) == DemandDispatch(old(Subs()), events)
    {
      if |order| != 1 {
        dispatched, remaining := DispatchLoop(events);
        return;
      }
      var t := order[0];
      assert t in order;
      if demand[t] > 0 {
        var count := Min(demand[t], |events|);
        SetValid(Subs(), t, demand[t] - count);
        demand := demand[t := demand[t] - count];
        dispatched, remaining := [Batch(t, events[..count])], events[count..];
      } else {
        dispatched, remaining := [], events;
      }
    }

    method DispatchLoop(events: seq<Event>) returns (dispatched: seq<Batch>, remaining: seq<Event>)
      requires Valid()
      modifies this
      ensures Valid() && Outcome(dispatched, Subs(), remaining) == Greedy(old(Subs()), events)
    {
      dispatched := [];
      var idx := 0;
      ghost var goal := Greedy(Subs(), events);
      ghost var rest := events;
      assert Prepend([], goal) == goal;
      while idx < |events|
        invariant 0 <= idx <= |events| && Valid() && rest == events[idx..]
        invariant Prepend(dispatched, Greedy(Subs(), rest)) == goal
      {
        var best := FindBest();
        if best.None? { break; }
        var count := TakeBatch(events[idx..], dispatched, best.value);
        Slices(events, idx, count);
        dispatched := dispatched + [Batch(best.value, events[idx..idx + count])];
        idx, rest := idx + count, rest[count..];
      }
      remaining := events[idx..];
      GreedyStops(dispatched, Subs(), rest);
    }

    method TakeBatch(rest: seq<Event>, ghost dispatched: seq<Batch>, best: Tag) returns (count: nat)
      requires Valid() && rest != [] && Best(order, Subs()) == Some(best)
      modifies this`demand
      ensures Valid() && 0 < count <= |rest|
      ensures Prepend(dispatched + [Batch(best, rest[..count])], Greedy(Subs(), rest[count..]))
        == Prepend(dispatched, Greedy(old(Subs()), rest))
    {
      ghost var t, n, s' := OneServed(Subs(), rest);
      hide Best, Greedy, Distinct, SumOver, Prepend;
      count := Min(demand[best], |rest|);
      demand := demand[best := demand[best] - count];
      assert Subs() == s';
      PrependOne(dispatched, Batch(best, rest[..count]), Greedy(s', rest[count..]));
    }
  }

  lemma {:induction false} Slices(events: seq<Event>, i: nat, n: nat)
    requires i + n <= |events|
    ensures events[i..][..n] == events[i..i + n] && events[i..][n..] == events[i + n..]
  {
  }

  lemma {:induction false} GreedyStops(dispatched: seq<Batch>, s: Subscribers, rest: seq<Event>)
    requires rest == [] || Best(s.order, s).None?
    ensures Prepend(dispatched, Greedy(s, rest)) == Outcome(dispatched, s, rest)
  {
    assert dispatched + [] == dispatched;
  }

  ghost function Prepend(batches: seq<Batch>, o: Outcome): Outcome {
    Outcome(batches + o.batches, o.subs, o.remaining)
  }

  lemma PrependOne(batches: seq<Batch>, b: Batch, o: Outcome)
    ensures Prepend(batches + [b], o) == Prepend(batches, Outcome([b] + o.batches, o.subs, o.remaining))
  {
    assert batches + ([b] + o.batches) == (batches + [b]) + o.batches;
  }

  lemma ToOneMore(order: seq<Tag>, i: nat, events: seq<Event>)
    requires i < |order|
    ensures ToAll(order[..i + 1], events) == ToAll(order[..i], events) + [Batch(order[i], events)]
  {
  }

  lemma ToNobody(events: seq<Event>)
    ensures ToAll([], events) == []
  {
  }

  class BroadcastDispatcher {
    var order: seq<Tag>
    var demand: map<Tag, int>
    var waiting: nat
    var requested: int

    ghost function State(): Broadcasting reads this {
      Broadcasting(Subscribers(order, demand), waiting, requested)
    }

    ghost predicate Valid() reads this { State().Valid() }

    constructor ()
      ensures Valid() && State() == Broadcasting(Subscribers([], map[]), 0, 0)
    {
      order, demand, waiting, requested := [], map[], 0, 0;
    }

    /// The loops that add to or subtract from every subscriber's demand.
    method AddToAll(delta: int)
      requires Subscribers(order, demand).Valid()
      modifies this`demand
      ensures Subscribers(order, demand) == old(Subscribers(order, demand)).Shift(delta)
    {
      for i := 0 to |order|
        invariant demand.Keys == old(demand).Keys
        invariant forall t :: t in demand ==> demand[t] == old(demand)[t] + if t in order[..i] then delta else 0
      {
        var t := order[i];
        assert t in order;
        DistinctAt(order, i);
        assert order[..i + 1] == order[..i] + [t];
        demand := demand[t := demand[t] + delta];
      }
      assert order[..|order|] == order;
    }

    method FindMin() returns (min: int)
      requires Subscribers(order, demand).Valid() && order != []
      ensures min == MinDemand(order, Subscribers(order, demand))
    {
      assert order[0] in order;
      min := demand[order[0]];
      for i := 1 to |order|
        invariant forall j :: 0 <= j < i ==> min <= State().subs.Get(order[j])
        invariant exists j :: 0 <= j < i && min == State().subs.Get(order[j])
      {
        assert order[i] in order;
        min := Min(min, demand[order[i]]);
      }
      ghost var t :| t in order && State().subs.Get(t) == MinDemand(order, State().subs);
    }

    method SyncDemands() returns (request: int)
      requires Subscribers(order, demand).Valid()
      modifies this`demand, this`waiting, this`requested
      ensures (State(), request) == old(State()).Sync()
    {
      if |order| == 0 { return 0; }
      var min := FindMin();
      if min <= 0 { return 0; }
      AddToAll(-min);
      waiting := waiting + min;
      request := Max(0, waiting - requested);
      requested := requested + request;
    }

    method Subscribe(t: Tag)
      requires Valid() && t !in demand
      modifies this
      ensures Valid() && State() == old(State()).Subscribe(t)
    {
      SubscribeKeeps(State(), t, t);
      if waiting > 0 { AddToAll(waiting); }
      order, demand := order + [t], demand[t := 0];
      waiting := 0;
    }

    method Cancel(t: Tag)
      requires Valid()
      modifies this
      ensures Valid() && State() == old(State()).Cancel(t)
    {
      CancelKeeps(State(), t, t);
      hide Broadcasting.Sync, Distinct, Outstanding, Without;
      DeleteValid(State().subs, t);
      order, demand := Without(order, t), demand - {t};
      if |order| == 0 {
        waiting, requested := 0, 0;
        return;
      }
      var _ := SyncDemands();
    }

    method AddDemand(t: Tag, n: nat)
      requires Subscribers(order, demand).Valid() && t in demand
      modifies this`demand
      ensures Subscribers(order, demand).Valid()
      ensures Subscribers(order, demand) == old(Subscribers(order, demand)).Set(t, old(Subscribers(order, demand)).Get(t) + n)
    {
      SetValid(Subscribers(order, demand), t, demand[t] + n);
      demand := demand[t := demand[t] + n];
    }

    method AskKnown(t: Tag, n: nat) returns (request: int)
      requires Subscribers(order, demand).Valid() && t in demand
      modifies this`demand, this`waiting, this`requested
      ensures (State(), request) == old(State()).Ask(t, n)
    {
      AddDemand(t, n);
      hide Subscribers.Valid, Subscribers.Set, Subscribers.Get, MinDemand;
      request := SyncDemands();
    }

    method Ask(t: Tag, n: nat) returns (request: int)
      requires Valid()
      modifies this
      ensures Valid() && (State(), request) == old(State()).Ask(t, n)
    {
      AskKeeps(State(), t, n, t);
      hide Broadcasting.Sync, Outstanding;
      if t !in demand { return 0; }
      request := AskKnown(t, n);
      hide Broadcasting.Valid;
    }

    method SendToAll(events: seq<Event>) returns (dispatched: seq<Batch>)
      ensures dispatched == ToAll(order, events)
    {
      hide ToAll;
      dispatched := [];
      ToNobody(events);
      for i := 0 to |order|
        modifies {}
        invariant dispatched == ToAll(order[..i], events)
      {
        ToOneMore(order, i, events);
        dispatched := dispatched + [Batch(order[i], events)];
      }
      assert order[..|order|] == order;
    }

    method Dispatch(events: seq<Event>) returns (dispatched: seq<Batch>, remaining: seq<Event>)
      requires Valid()
      modifies this
      ensures Valid() && (State(), dispatched, remaining) == old(State()).Dispatch(events)
    {
      DispatchKeeps(State(), events, 0);
      if waiting == 0 || |order| == 0 { return [], events; }
      hide Broadcasting.Valid, Delivered, Outstanding, ToAll;
      var count := Min(|events|, waiting);
      waiting, requested := waiting - count, requested - count;
      dispatched := SendToAll(events[..count]);
      remaining := events[count..];
    }
  }

  lemma {:induction false} RouteOneMore(demand: int, buffer: seq<Event>, share: seq<Event>, e: Event)
    requires demand >= 0
    ensures var r := Route(demand, buffer, share);
      Route(demand, buffer, share + [e]) ==
        if demand - r.spent > 0 then Routed(r.bucket + [e], r.buffer, r.spent + 1)
        else Routed(r.bucket, r.buffer + [e], r.spent)
  {
    var n := Max(0, Min(demand, |share|));
    if demand > |share| {
      assert share[..n] == share && (share + [e])[..n + 1] == share + [e];
      assert share[n..] == [] && (share + [e])[n + 1..] == [];
    } else {
      assert (share + [e])[..n] == share[..n] && (share + [e])[n..] == share[n..] + [e];
      assert buffer + (share[n..] + [e]) == (buffer + share[n..]) + [e];
    }
  }

  /// Routing one more event to the partition it hashes to, given what the owner has left.
  lemma RouteHere(d: Partitions, before: seq<Event>, event: Event, p: nat)
    requires d.Valid() && p < |d.owners| && d.hash(event) == Some(p)
    ensures var r, o, r' := RouteAt(d, before, p), Charge(d.owners[p], RouteAt(d, before, p).spent), RouteAt(d, before + [event], p);
      if o.None? || o.value.demand <= 0 then
        r'.bucket == r.bucket && r'.buffer == r.buffer + [event] && Charge(d.owners[p], r'.spent) == o
      else
        r'.bucket == r.bucket + [event] && r'.buffer == r.buffer
        && Charge(d.owners[p], r'.spent) == Some(Owner(o.value.tag, o.value.demand - 1))
  {
    assert (before + [event])[..|before|] == before;
    assert Share(d.hash, before + [event], p) == Share(d.hash, before, p) + [event];
    RouteOneMore(d.Demand(p), d.Buffer(p), Share(d.hash, before, p), event);
    assert RouteAt(d, before, p).spent >= 0;
  }

  lemma RouteElsewhere(d: Partitions, before: seq<Event>, event: Event, p: nat)
    requires d.hash(event) != Some(p)
    ensures RouteAt(d, before + [event], p) == RouteAt(d, before, p)
  {
    assert (before + [event])[..|before|] == before;
  }

  /// Draining one partition after routing.
  lemma DrainHere(d: Partitions, events: seq<Event>, p: nat)
    requires d.Valid() && p < |d.owners|
    ensures var r, o, r' := RouteAt(d, events, p), Charge(d.owners[p], RouteAt(d, events, p).spent), DispatchAt(d, events, p);
      var demand := if o.Some? then o.value.demand else 0;
      if r.buffer != [] && demand > 0 then
        var n := Min(demand, |r.buffer|);
        && r'.bucket == r.bucket + r.buffer[..n] && r'.buffer == r.buffer[n..]
        && Charge(d.owners[p], r'.spent) == Some(Owner(o.value.tag, demand - n))
      else
        r'.bucket == r.bucket && r'.buffer == r.buffer && Charge(d.owners[p], r'.spent) == o
  {
    var r := RouteAt(d, events, p);
    assert r.spent >= 0 && d.Demand(p) >= 0;
    hide RouteAt, Partitions.Valid;
    assert r.bucket + r.buffer[..0] == r.bucket && r.buffer[0..] == r.buffer;
  }

  ghost predicate AfterAt(d: Partitions, events: seq<Event>, owner: Option<Owner>, buffer: seq<Event>, p: nat)
    requires p < |d.owners|
  {
    owner == Charge(d.owners[p], DispatchAt(d, events, p).spent) && buffer == DispatchAt(d, events, p).buffer
  }

  lemma AfterIs(d: Partitions, events: seq<Event>, owners: seq<Option<Owner>>, buffers: seq<seq<Event>>)
    requires |owners| == |buffers| == |d.owners|
    requires forall p :: 0 <= p < |owners| ==> AfterAt(d, events, owners[p], buffers[p], p)
    ensures AfterDispatch(d, events).owners == owners && AfterDispatch(d, events).buffers == buffers
  {
    hide DispatchAt, Charge;
  }

  function AddressTo(o: Option<Owner>, bucket: seq<Event>): seq<Batch> {
    if |bucket| > 0 && o.Some? then [Batch(o.value.tag, bucket)] else []
  }

  class PartitionDispatcher {
    const hash: Hash
    var owners: seq<Option<Owner>>
    var index: map<Tag, nat>
    var buffers: seq<seq<Event>>

    ghost function State(): Partitions reads this { Partitions(hash, owners, index, buffers) }

    ghost predicate Valid() reads this { State().Valid() }

    constructor (partitions: nat, hash: Hash)
      ensures Valid() && this.hash == hash && index == map[]
      ensures owners == seq(partitions, _ => None) && buffers == seq(partitions, _ => [])
    {
      this.hash := hash;
      owners, index, buffers := seq(partitions, _ => None), map[], seq(partitions, _ => []);
    }

    method Subscribe(t: Tag, partition: Option<int>) returns (ok: bool)
      requires Valid() && t !in index
      modifies this
      ensures Valid() && ok == old(State()).Subscribe(t, partition).Some?
      ensures State() == if ok then old(State()).Subscribe(t, partition).value else old(State())
    {
      if partition.None? { return false; }
      var p := partition.value;
      if p < 0 || p >= |owners| { return false; }
      if owners[p].Some? { return false; }
      owners, index := owners[p := Some(Owner(t, 0))], index[t := p];
      ok := true;
    }

    method Cancel(t: Tag)
      requires Valid()
      modifies this
      ensures Valid() && State() == old(State()).Cancel(t)
    {
      if t !in index { return; }
      owners, index := owners[index[t] := None], index - {t};
    }

    method Ask(t: Tag, n: nat) returns (up: int)
      requires Valid()
      modifies this
      ensures Valid() && (State(), up) == old(State()).Ask(t, n)
    {
      if t !in index { return 0; }
      var entry := owners[index[t]].value;
      owners := owners[index[t] := Some(Owner(entry.tag, entry.demand + n))];
      up := n;
    }

    /// The state reached, and the buckets filled, after routing `events` and draining the first `k` partitions.
    ghost predicate Reached(d: Partitions, events: seq<Event>, k: nat, buckets: seq<seq<Event>>)
      reads this
    {
      && hash == d.hash && index == d.index
      && |owners| == |buffers| == |buckets| == |d.owners|
      && forall p :: 0 <= p < |d.owners| ==> ReachedAt(d, events, k, p, buckets)
    }

    ghost predicate ReachedAt(d: Partitions, events: seq<Event>, k: nat, p: nat, buckets: seq<seq<Event>>)
      reads this
      requires p < |owners| == |buffers| == |buckets| == |d.owners|
    {
      var r := if p < k then DispatchAt(d, events, p) else RouteAt(d, events, p);
      owners[p] == Charge(d.owners[p], r.spent) && buffers[p] == r.buffer && buckets[p] == r.bucket
    }

    method RouteOne(ghost d: Partitions, ghost before: seq<Event>, event: Event, buckets: seq<seq<Event>>)
        returns (thrown: bool, buckets': seq<seq<Event>>)
      requires d.Valid() && Reached(d, before, 0, buckets)
      modifies this`owners, this`buffers
      ensures thrown <==> hash(event).Some? && !(0 <= hash(event).value < |d.owners|)
      ensures thrown ==> buckets' == buckets && Reached(d, before, 0, buckets)
      ensures !thrown ==> Reached(d, before + [event], 0, buckets')
    {
      buckets' := buckets;
      var h := hash(event);
      hide RouteAt, DispatchAt;
      if h.None? {
        forall q | 0 <= q < |d.owners| ensures ReachedAt(d, before + [event], 0, q, buckets) {
          RouteElsewhere(d, before, event, q);
          assert ReachedAt(d, before, 0, q, buckets);
        }
        return false, buckets;
      }
      var p := h.value;
      if p < 0 || p >= |owners| { return true, buckets; }
      RouteHere(d, before, event, p);
      assert ReachedAt(d, before, 0, p, buckets);
      hide Partitions.Valid, Charge;
      if owners[p].None? || owners[p].value.demand <= 0 {
        buffers := buffers[p := buffers[p] + [event]];
      } else {
        owners := owners[p := Some(Owner(owners[p].value.tag, owners[p].value.demand - 1))];
        buckets' := buckets[p := buckets[p] + [event]];
      }
      forall q | 0 <= q < |d.owners| && q != p ensures ReachedAt(d, before + [event], 0, q, buckets') {
        RouteElsewhere(d, before, event, q);
        assert old(ReachedAt(d, before, 0, q, buckets));
      }
      thrown := false;
    }

    method DrainOne(ghost d: Partitions, ghost events: seq<Event>, p: nat, buckets: seq<seq<Event>>)
        returns (buckets': seq<seq<Event>>)
      requires d.Valid() && p < |d.owners| && Reached(d, events, p, buckets)
      modifies this`owners, this`buffers
      ensures Reached(d, events, p + 1, buckets')
    {
      buckets' := buckets;
      assert ReachedAt(d, events, p, p, buckets);
      DrainHere(d, events, p);
      hide RouteAt, DispatchAt, Partitions.Valid, Charge;
      var demand := if owners[p].Some? then owners[p].value.demand else 0;
      if buffers[p] != [] && demand > 0 {
        var count := Min(demand, |buffers[p]|);
        buckets' := buckets[p := buckets[p] + buffers[p][..count]];
        owners := owners[p := Some(Owner(owners[p].value.tag, demand - count))];
        buffers := buffers[p := buffers[p][count..]];
      }
      var next := p + 1;
      assert ReachedAt(d, events, next, p, buckets');
      forall q | 0 <= q < |d.owners| && q != p ensures ReachedAt(d, events, next, q, buckets') {
        assert old(ReachedAt(d, events, p, q, buckets));
      }
    }

    method RouteAll(ghost d: Partitions, events: seq<Event>) returns (thrown: bool, buckets: seq<seq<Event>>)
      requires Valid() && d == State()
      modifies this`owners, this`buffers
      ensures thrown <==> !Routable(hash, |d.owners|, events)
      ensures !thrown ==> Reached(d, events, 0, buckets)
      ensures thrown ==> exists k :: 0 <= k < |events| && Reached(d, events[..k], 0, buckets)
    {
      buckets := seq(|owners|, _ => []);
      forall p | 0 <= p < |d.owners| ensures ReachedAt(d, [], 0, p, buckets) {
        assert buffers[p] + [] == buffers[p];
      }
      for k := 0 to |events|
        invariant Reached(d, events[..k], 0, buckets)
        invariant Routable(hash, |d.owners|, events[..k])
      {
        assert events[..k + 1] == events[..k] + [events[k]];
        thrown, buckets := RouteOne(d, events[..k], events[k], buckets);
        if thrown {
          assert events[k] in events;
          return;
        }
      }
      assert events[..|events|] == events;
      thrown := false;
    }

    method DrainAll(ghost d: Partitions, ghost events: seq<Event>, buckets: seq<seq<Event>>) returns (buckets': seq<seq<Event>>)
      requires d.Valid() && Reached(d, events, 0, buckets)
      modifies this`owners, this`buffers
      ensures Reached(d, events, |d.owners|, buckets')
    {
      buckets' := buckets;
      for p := 0 to |owners|
        invariant Reached(d, events, p, buckets')
      {
        buckets' := DrainOne(d, events, p, buckets');
      }
    }

    /// The nonempty buckets, addressed to their owners, in partition order.
    method Collect(ghost parts: seq<seq<Batch>>, buckets: seq<seq<Event>>) returns (dispatched: seq<Batch>)
      requires |owners| == |buckets| == |parts|
      requires forall p :: 0 <= p < |owners| ==> parts[p] == AddressTo(owners[p], buckets[p])
      ensures dispatched == Glue(parts, |parts|)
    {
      dispatched := [];
      for p := 0 to |owners|
        invariant dispatched == Glue(parts, p)
      {
        dispatched := dispatched + AddressTo(owners[p], buckets[p]);
      }
    }

    lemma OwnerAfter(d: Partitions, events: seq<Event>, p: nat, buckets: seq<seq<Event>>)
      requires p < |owners| == |buffers| == |buckets| == |d.owners| && ReachedAt(d, events, |d.owners|, p, buckets)
      ensures AddressTo(owners[p], buckets[p]) == BucketAt(d, events, p)
    {
      hide Drain, Route, Share;
    }

    /// A hash that names no partition throws midway: the events before it stay routed, and those routed
    /// to a bucket are lost.
    method Dispatch(events: seq<Event>) returns (thrown: bool, dispatched: seq<Batch>)
      requires Valid()
      modifies this`owners, this`buffers
      ensures thrown <==> !Routable(hash, |old(owners)|, events)
      ensures !thrown ==> Valid() && (State(), dispatched) == PartitionDispatch(old(State()), events)
      ensures thrown ==> dispatched == [] && exists k, buckets :: 0 <= k < |events| && Reached(old(State()), events[..k], 0, buckets)
    {
      ghost var d := State();
      var buckets;
      thrown, buckets := RouteAll(d, events);
      if thrown { return true, []; }
      buckets := DrainAll(d, events, buckets);
      forall p | 0 <= p < |owners| ensures Partition.Addressed(d, events)[p] == AddressTo(owners[p], buckets[p]) {
        OwnerAfter(d, events, p, buckets);
      }
      dispatched := Collect(Partition.Addressed(d, events), buckets);
      forall p | 0 <= p < |owners| ensures AfterAt(d, events, owners[p], buffers[p], p) {
        assert ReachedAt(d, events, |d.owners|, p, buckets);
      }
      AfterIs(d, events, owners, buffers);
      AfterDispatchValid(d, events);
    }
  }
}
