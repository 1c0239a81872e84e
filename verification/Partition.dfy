/// The partition dispatcher as a value: one owner per partition, one buffer per partition, events routed
/// by a hash.

module Partition {
  import opened Basics
  import opened Dispatch

  /// Partition index of an event, or nothing to discard it.
  type Hash = Event -> Option<int>

  datatype Owner = Owner(tag: Tag, demand: int)

  datatype Partitions = Partitions(hash: Hash, owners: seq<Option<Owner>>, index: map<Tag, nat>, buffers: seq<seq<Event>>) {
    ghost predicate Valid() {
      && |buffers| == |owners|
      && (forall t :: t in index ==> index[t] < |owners| && owners[index[t]].Some? && owners[index[t]].value.tag == t)
      && (forall p :: 0 <= p < |owners| && owners[p].Some? ==>
            && owners[p].value.tag in index && index[owners[p].value.tag] == p
            && owners[p].value.demand >= 0)
    }

    function Demand(p: nat): int {
      if p < |owners| && owners[p].Some? then owners[p].value.demand else 0
    }

    function Buffer(p: nat): seq<Event> {
      if p < |buffers| then buffers[p] else []
    }

    function Outstanding(t: Tag): int {
      if t in index then Demand(index[t]) else 0
    }

    /// `None` stands for the error thrown for a missing, invalid or taken partition.
    function Subscribe(t: Tag, partition: Option<int>): Option<Partitions> {
      match partition
      case None => None
      case Some(p) =>
        if p < 0 || p >= |owners| || owners[p].Some? then None
        else Some(Partitions(hash, owners[p := Some(Owner(t, 0))], index[t := p], buffers))
    }

    function Cancel(t: Tag): Partitions {
      if t !in index || index[t] >= |owners| then this
      else Partitions(hash, owners[index[t] := None], index - {t}, buffers)
    }

    function Ask(t: Tag, n: nat): (Partitions, int) {
      if t !in index || index[t] >= |owners| || owners[index[t]].None? then (this, 0)
      else
        var o := owners[index[t]].value;
        (Partitions(hash, owners[index[t] := Some(Owner(o.tag, o.demand + n))], index, buffers), n)
    }

    function HasSubscribers(): bool {
      exists p :: 0 <= p < |owners| && owners[p].Some?
    }
  }

  function Charge(o: Option<Owner>, n: int): Option<Owner> {
    if o.Some? then Some(Owner(o.value.tag, o.value.demand - n)) else o
  }

  /// The events that hash to partition `p`.
  function Share(hash: Hash, events: seq<Event>, p: int): seq<Event> {
    if events == [] then []
    else
      var n := |events| - 1;
      Share(hash, events[..n], p) + if hash(events[n]) == Some(p) then [events[n]] else []
  }

  /// Whether dispatching these events does not throw: every hash is null or names a partition.
  ghost predicate Routable(hash: Hash, count: nat, events: seq<Event>) {
    forall e :: e in events ==> hash(e).None? || 0 <= hash(e).value < count
  }

  lemma {:induction false} ShareConcat(hash: Hash, a: seq<Event>, b: seq<Event>, p: int)
    ensures Share(hash, a + b, p) == Share(hash, a, p) + Share(hash, b, p)
  {
    if b == [] {
      assert a + b == a;
    } else {
      var n := |b| - 1;
      assert (a + b)[..|a| + n] == a + b[..n];
      ShareConcat(hash, a, b[..n], p);
    }
  }

  /// What one dispatch does to partition `p`: events of its share go out while the owner has demand and
  /// are buffered otherwise; then the buffer is drained as far as demand still reaches.
  datatype Routed = Routed(bucket: seq<Event>, buffer: seq<Event>, spent: int)

  function Route(demand: int, buffer: seq<Event>, share: seq<Event>): Routed {
    var n := Max(0, Min(demand, |share|));
    Routed(share[..n], buffer + share[n..], n)
  }

  function Drain(demand: int, r: Routed): Routed {
    var n := Max(0, Min(demand - r.spent, |r.buffer|));
    Routed(r.bucket + r.buffer[..n], r.buffer[n..], r.spent + n)
  }

  function RouteAt(d: Partitions, events: seq<Event>, p: nat): Routed {
    Route(d.Demand(p), d.Buffer(p), Share(d.hash, events, p))
  }

  function DispatchAt(d: Partitions, events: seq<Event>, p: nat): Routed {
    Drain(d.Demand(p), RouteAt(d, events, p))
  }

  function AfterDispatch(d: Partitions, events: seq<Event>): Partitions {
    Partitions(d.hash,
      seq(|d.owners|, p requires 0 <= p < |d.owners| => Charge(d.owners[p], DispatchAt(d, events, p).spent)),
      d.index,
      seq(|d.owners|, p requires 0 <= p < |d.owners| => DispatchAt(d, events, p).buffer))
  }

  /// The nonempty buckets of partitions below `k`, in partition order.
  function Buckets(d: Partitions, events: seq<Event>, k: nat): seq<Batch>
    requires k <= |d.owners|
  {
    Glue(Addressed(d, events), k)
  }

  function Addressed(d: Partitions, events: seq<Event>): seq<seq<Batch>> {
    seq(|d.owners|, p requires 0 <= p < |d.owners| => BucketAt(d, events, p))
  }

  function Glue(parts: seq<seq<Batch>>, k: nat): seq<Batch>
    requires k <= |parts|
  {
    if k == 0 then [] else Glue(parts, k - 1) + parts[k - 1]
  }

  function PartitionDispatch(d: Partitions, events: seq<Event>): (Partitions, seq<Batch>) {
    (AfterDispatch(d, events), Buckets(d, events, |d.owners|))
  }

  /// Routing then draining: never more than the demand goes out, order is kept unless something was
  /// buffered although there was demand and new events came in, and what stays means the demand is gone.
  lemma {:induction false} RouteThenDrain(demand: int, buffer: seq<Event>, share: seq<Event>)
    requires demand >= 0
    ensures var r := Drain(demand, Route(demand, buffer, share));
      && 0 <= r.spent == |r.bucket| <= demand
      && (share == [] || buffer == [] || demand == 0 ==> r.bucket + r.buffer == buffer + share)
      && (r.buffer != [] ==> r.spent == demand)
  {
    SpentIsSent(demand, buffer, share);
    if share == [] || buffer == [] || demand == 0 { NothingOvertakes(demand, buffer, share); }
  }

  lemma SpentIsSent(demand: int, buffer: seq<Event>, share: seq<Event>)
    requires demand >= 0
    ensures var r := Drain(demand, Route(demand, buffer, share));
      0 <= r.spent == |r.bucket| <= demand && (r.buffer != [] ==> r.spent == demand)
  {
    var n := Min(demand, |share|);
    assert |buffer + share[n..]| == |buffer| + |share| - n;
  }

  lemma NothingOvertakes(demand: int, buffer: seq<Event>, share: seq<Event>)
    requires demand >= 0 && (share == [] || buffer == [] || demand == 0)
    ensures var r := Drain(demand, Route(demand, buffer, share)); r.bucket + r.buffer == buffer + share
  {
    var n := Min(demand, |share|);
    var r := Route(demand, buffer, share);
    var m := Max(0, Min(demand - n, |r.buffer|));
    if buffer == [] {
      assert r.buffer == share[n..];
      Rejoined(share, n, m);
    } else {
      assert share[..n] == [] && r.buffer == buffer + share;
      Rejoined(r.buffer, 0, m);
    }
    hide Route;
  }

  /// A sequence cut twice and put together again.
  lemma Rejoined(s: seq<Event>, n: nat, m: nat)
    requires n + m <= |s|
    ensures (s[..n] + s[n..][..m]) + s[n..][m..] == s
  {
  }

  function BucketAt(d: Partitions, events: seq<Event>, p: nat): seq<Batch>
    requires p < |d.owners|
  {
    var bucket := DispatchAt(d, events, p).bucket;
    if bucket != [] && d.owners[p].Some? then [Batch(d.owners[p].value.tag, bucket)] else []
  }

  /// What subscription `t` gets from the bucket of partition `p`.
  function Received(d: Partitions, events: seq<Event>, p: nat, t: Tag): seq<Event>
    requires p < |d.owners|
  {
    if t in d.index && d.index[t] == p then DispatchAt(d, events, p).bucket else []
  }

  lemma DeliveredOne(b: Batch, t: Tag)
    ensures Delivered([b], t) == if b.tag == t then b.events else []
  {
    assert [b][1..] == [];
  }

  /// Which tags a partition's index entry and owner stand for.
  lemma OwnerOf(d: Partitions, p: nat, t: Tag)
    requires d.Valid() && p < |d.owners|
    ensures t in d.index && d.index[t] == p <==> d.owners[p].Some? && d.owners[p].value.tag == t
    ensures d.owners[p].Some? ==> d.Outstanding(d.owners[p].value.tag) == d.Demand(p)
  {
  }

  lemma BucketAtDelivers(d: Partitions, events: seq<Event>, p: nat, t: Tag)
    requires d.Valid() && p < |d.owners|
    ensures Delivered(BucketAt(d, events, p), t) == Received(d, events, p, t)
  {
    OwnerOf(d, p, t);
    NothingDelivered(t);
    hide DispatchAt, Delivered, Partitions.Valid;
    var bucket := DispatchAt(d, events, p).bucket;
    if bucket != [] && d.owners[p].Some? { DeliveredOne(Batch(d.owners[p].value.tag, bucket), t); }
  }

  lemma BucketAtIsSolvent(d: Partitions, events: seq<Event>, p: nat)
    requires d.Valid() && p < |d.owners|
    ensures Solvent(d, BucketAt(d, events, p))
  {
    if d.owners[p].Some? { OwnerOf(d, p, d.owners[p].value.tag); }
    RouteThenDrain(d.Demand(p), d.buffers[p], Share(d.hash, events, p));
    hide Route, Drain, Share, Partitions.Valid, Partitions.Outstanding;
  }

  lemma NothingDelivered(t: Tag)
    ensures Delivered([], t) == []
  {
  }

  /// Whoever is sent something has demand.
  ghost predicate Solvent(d: Partitions, batches: seq<Batch>) { forall b :: b in batches ==> d.Outstanding(b.tag) > 0 }

  lemma SolventTogether(d: Partitions, a: seq<Batch>, b: seq<Batch>)
    requires Solvent(d, a) && Solvent(d, b)
    ensures Solvent(d, a + b)
  {
    hide Partitions.Outstanding;
  }

  lemma {:induction false} BucketsAreSolvent(d: Partitions, events: seq<Event>, k: nat)
    requires d.Valid() && k <= |d.owners|
    ensures Solvent(d, Buckets(d, events, k))
  {
    hide BucketAt, Partitions.Valid, Partitions.Outstanding, Solvent;
    if k > 0 {
      BucketsAreSolvent(d, events, k - 1);
      BucketAtIsSolvent(d, events, k - 1);
      SolventTogether(d, Buckets(d, events, k - 1), BucketAt(d, events, k - 1));
    } else {
      NobodyIsSent(d);
    }
  }

  lemma NobodyIsSent(d: Partitions)
    ensures Solvent(d, [])
  {
  }

  lemma {:induction false} GlueDelivers(parts: seq<seq<Batch>>, k: nat, t: Tag, home: int)
    requires k <= |parts|
    requires forall p :: 0 <= p < |parts| && p != home ==> Delivered(parts[p], t) == []
    ensures Delivered(Glue(parts, k), t) == if 0 <= home < k then Delivered(parts[home], t) else []
  {
    if k > 0 {
      GlueDelivers(parts, k - 1, t, home);
      var before, last := Glue(parts, k - 1), parts[k - 1];
      DeliveredConcat(before, last, t);
      assert Glue(parts, k) == before + last;
    }
  }

  lemma {:induction false} BucketsDeliver(d: Partitions, events: seq<Event>, k: nat, t: Tag)
    requires d.Valid() && k <= |d.owners|
    ensures Delivered(Buckets(d, events, k), t)
      == if t in d.index && d.index[t] < k then Received(d, events, d.index[t], t) else []
  {
    var parts := Addressed(d, events);
    forall p | 0 <= p < |parts| ensures Delivered(parts[p], t) == Received(d, events, p, t) {
      BucketAtDelivers(d, events, p, t);
    }
    GlueDelivers(parts, k, t, if t in d.index then d.index[t] else -1);
  }

  lemma {:induction false} AfterDispatchValid(d: Partitions, events: seq<Event>)
    requires d.Valid()
    ensures AfterDispatch(d, events).Valid()
  {
    forall p | 0 <= p < |d.owners| && d.owners[p].Some? ensures AfterDispatch(d, events).owners[p].value.demand >= 0 {
      RouteThenDrain(d.Demand(p), d.buffers[p], Share(d.hash, events, p));
    }
  }

  /// Per subscriber: demand falls by exactly what it is sent, and only a subscriber with demand is sent
  /// anything.
  lemma {:induction false} DispatchLedger(d: Partitions, events: seq<Event>, t: Tag)
    requires d.Valid()
    ensures AfterDispatch(d, events).Valid() && AfterDispatch(d, events).index == d.index
    ensures AfterDispatch(d, events).Outstanding(t) + |Delivered(PartitionDispatch(d, events).1, t)| == d.Outstanding(t)
    ensures forall b :: b in PartitionDispatch(d, events).1 ==> d.Outstanding(b.tag) > 0
  {
    AfterDispatchValid(d, events);
    BucketsDeliver(d, events, |d.owners|, t);
    BucketsAreSolvent(d, events, |d.owners|);
    if t in d.index {
      RouteThenDrain(d.Demand(d.index[t]), d.buffers[d.index[t]], Share(d.hash, events, d.index[t]));
    }
  }

  // ---------------------------------------------------------------------------------------------
  // First-in first-out per partition

  /// A partition with buffered events has no owner or no demand, so a new event never overtakes them.
  ghost predicate Settled(d: Partitions) {
    forall p :: 0 <= p < |d.owners| && p < |d.buffers| && d.buffers[p] != [] ==> d.Demand(p) == 0
  }

  /// One dispatch keeps each partition's order: what goes out, then what stays buffered, is what was
  /// buffered followed by the share of the new events; and afterwards the partition is settled.
  /// Either nothing new comes in (the drain a producer runs first) or nothing is pending ahead of it.
  lemma {:induction false} DispatchInOrder(d: Partitions, events: seq<Event>, p: nat)
    requires d.Valid() && p < |d.owners|
    requires events == [] || d.buffers[p] == [] || d.Demand(p) == 0
    ensures var r := DispatchAt(d, events, p);
      && r.bucket + r.buffer == d.buffers[p] + Share(d.hash, events, p)
      && (r.buffer != [] ==> AfterDispatch(d, events).Demand(p) == 0)
      && (d.owners[p].None? ==> r.bucket == [])
  {
    RouteThenDrain(d.Demand(p), d.buffers[p], Share(d.hash, events, p));
  }
}
