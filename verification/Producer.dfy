/// The producer stage as a value: a dispatcher, a bounded buffer and a demand mode.

module Dispatchers {
  import opened Basics
  import opened Dispatch
  import opened Broadcast
  import opened Partition

  datatype Dispatcher = OnDemand(subs: Subscribers) | ToEveryone(b: Broadcasting) | ByPartition(d: Partitions) {
    ghost predicate Valid() {
      match this
      case OnDemand(subs) => subs.Valid()
      case ToEveryone(b) => b.Valid()
      case ByPartition(d) => d.Valid()
    }

    ghost predicate Has(t: Tag) {
      match this
      case OnDemand(subs) => t in subs.demand
      case ToEveryone(b) => t in b.subs.demand
      case ByPartition(d) => t in d.index
    }

    /// Demand the producer side still owes `t`.
    function Owed(t: Tag): int {
      match this
      case OnDemand(subs) => subs.Get(t)
      case ToEveryone(b) => Outstanding(b, t)
      case ByPartition(d) => d.Outstanding(t)
    }

    function Subscribe(t: Tag, partition: Option<int>): Option<Dispatcher> {
      match this
      case OnDemand(subs) => Some(OnDemand(subs.Set(t, 0)))
      case ToEveryone(b) => Some(ToEveryone(b.Subscribe(t)))
      case ByPartition(d) =>
        var r := d.Subscribe(t, partition);
        if r.Some? then Some(ByPartition(r.value)) else None
    }

    function Cancel(t: Tag): Dispatcher {
      match this
      case OnDemand(subs) => OnDemand(subs.Delete(t))
      case ToEveryone(b) => ToEveryone(b.Cancel(t))
      case ByPartition(d) => ByPartition(d.Cancel(t))
    }

    /// The new dispatcher and the demand to pass upstream.
    function Ask(t: Tag, n: nat): (Dispatcher, int) {
      match this
      case OnDemand(subs) =>
        var s := if t in subs.demand then subs.Set(t, subs.Get(t) + n) else subs;
        (OnDemand(s), s.Total())
      case ToEveryone(b) => var (b', up) := b.Ask(t, n); (ToEveryone(b'), up)
      case ByPartition(d) => var (d', up) := d.Ask(t, n); (ByPartition(d'), up)
    }

    function Dispatch(events: seq<Event>): (Dispatcher, seq<Batch>, seq<Event>) {
      match this
      case OnDemand(subs) => var o := DemandDispatch(subs, events); (OnDemand(o.subs), o.batches, o.remaining)
      case ToEveryone(b) => var (b', batches, remaining) := b.Dispatch(events); (ToEveryone(b'), batches, remaining)
      case ByPartition(d) => var (d', batches) := PartitionDispatch(d, events); (ByPartition(d'), batches, [])
    }

    function HasSubscribers(): bool {
      match this
      case OnDemand(subs) => subs.order != []
      case ToEveryone(b) => b.subs.order != []
      case ByPartition(d) => d.HasSubscribers()
    }
  }

  /// Only the partition dispatcher refuses: when the partition is missing, out of range or taken.
  lemma SubscribesIff(d: Dispatcher, t: Tag, partition: Option<int>)
    requires d.Valid()
    ensures d.Subscribe(t, partition).Some? <==>
              (d.ByPartition? ==>
                && partition.Some? && 0 <= partition.value < |d.d.owners|
                && forall u :: d.Has(u) ==> d.d.index[u] != partition.value)
  {
    if d.ByPartition? && partition.Some? && 0 <= partition.value < |d.d.owners| && d.d.owners[partition.value].Some? {
      assert d.Has(d.d.owners[partition.value].value.tag);
    }
  }

  lemma HasSubscribersIff(d: Dispatcher)
    requires d.Valid()
    ensures d.HasSubscribers() <==> exists t :: d.Has(t)
  {
    match d
    case OnDemand(subs) =>
      HasSomebody(subs);
      if t :| t in subs.demand { assert d.Has(t); }
    case ToEveryone(b) =>
      HasSomebody(b.subs);
      if t :| t in b.subs.demand { assert d.Has(t); }
    case ByPartition(q) =>
      if p :| 0 <= p < |q.owners| && q.owners[p].Some? { assert d.Has(q.owners[p].value.tag); }
      if t :| t in q.index { assert q.owners[q.index[t]].Some?; }
  }

  lemma HasSomebody(subs: Subscribers)
    requires subs.Valid()
    ensures subs.order != [] <==> exists t :: t in subs.demand
  {
    if subs.order != [] { assert subs.order[0] in subs.order; }
    if t :| t in subs.demand { assert t in subs.order; }
  }

  /// Subscribing owes the newcomer nothing and moves nobody else's outstanding demand.
  lemma {:induction false} SubscribeOwes(d: Dispatcher, t: Tag, partition: Option<int>, u: Tag)
    requires d.Valid() && !d.Has(t) && d.Subscribe(t, partition).Some?
    ensures var r := d.Subscribe(t, partition).value;
      r.Valid() && (r.Has(u) <==> d.Has(u) || u == t) && r.Owed(u) == if u == t then 0 else d.Owed(u)
  {
    match d
    case OnDemand(subs) => SetValid(subs, t, 0);
    case ToEveryone(b) => SubscribeKeeps(b, t, u);
    case ByPartition(_) =>
  }

  lemma {:induction false} CancelOwes(d: Dispatcher, t: Tag, u: Tag)
    requires d.Valid()
    ensures var r := d.Cancel(t);
      r.Valid() && (r.Has(u) <==> d.Has(u) && u != t) && r.Owed(u) == if u == t then 0 else d.Owed(u)
  {
    match d
    case OnDemand(subs) => DeleteValid(subs, t);
    case ToEveryone(b) => CancelKeeps(b, t, u);
    case ByPartition(_) =>
  }

  lemma {:induction false} AskOwes(d: Dispatcher, t: Tag, n: nat, u: Tag)
    requires d.Valid()
    ensures var r := d.Ask(t, n).0;
      && r.Valid() && (r.Has(u) <==> d.Has(u))
      && r.Owed(u) == d.Owed(u) + (if u == t && d.Has(t) then n else 0)
  {
    match d
    case OnDemand(subs) => SetValid(subs, t, subs.Get(t) + n);
    case ToEveryone(b) => AskKeeps(b, t, n, u);
    case ByPartition(_) =>
  }

  // ---------------------------------------------------------------------------------------------
  // What an ask passes upstream

  /// The tags of the current subscriptions, each once, in any order.
  ghost predicate Lists(tags: seq<Tag>, d: Dispatcher) { Distinct(tags) && forall u :: u in tags <==> d.Has(u) }

  function OwedTo(d: Dispatcher, tags: seq<Tag>): int {
    if tags == [] then 0 else d.Owed(tags[0]) + OwedTo(d, tags[1..])
  }

  ghost predicate SmallestOwed(d: Dispatcher, m: int) {
    (forall u :: d.Has(u) ==> m <= d.Owed(u)) && exists u :: d.Has(u) && d.Owed(u) == m
  }

  /// The sum may be taken in any order.
  lemma {:induction false} OwedTakenOut(d: Dispatcher, tags: seq<Tag>, t: Tag)
    requires t in tags
    ensures OwedTo(d, tags) == d.Owed(t) + OwedTo(d, Without(tags, t))
  {
    if tags[0] != t {
      OwedTakenOut(d, tags[1..], t);
      assert ([tags[0]] + Without(tags[1..], t))[1..] == Without(tags[1..], t);
    }
  }

  lemma {:induction false} OwedInAnyOrder(d: Dispatcher, a: seq<Tag>, b: seq<Tag>)
    requires Distinct(a) && Distinct(b) && (forall u :: u in a ==> u in b) && forall i :: 0 <= i < |b| ==> b[i] in a
    ensures OwedTo(d, a) == OwedTo(d, b)
    decreases |a|
  {
    if a != [] {
      assert a == [a[0]] + a[1..];
      OwedTakenOut(d, b, a[0]);
      WithoutKeeps(b, a[0]);
      var left := Without(b, a[0]);
      forall i | 0 <= i < |left| ensures left[i] in a[1..] {
        assert left[i] in left;
      }
      OwedInAnyOrder(d, a[1..], left);
    }
  }

  lemma {:induction false} TotalIsOwed(subs: Subscribers, order: seq<Tag>)
    ensures SumOver(order, subs) == OwedTo(OnDemand(subs), order)
  {
    if order != [] { TotalIsOwed(subs, order[1..]); }
  }

  /// The demand dispatcher passes on all that it owes after the ask, to whomever it is owed.
  lemma DemandAskPassesTotal(subs: Subscribers, t: Tag, n: nat, tags: seq<Tag>)
    requires subs.Valid() && Lists(tags, OnDemand(subs))
    ensures OnDemand(subs).Ask(t, n).1 == OwedTo(OnDemand(subs).Ask(t, n).0, tags)
  {
    var r := OnDemand(subs).Ask(t, n).0;
    SetValid(subs, t, subs.Get(t) + n);
    TotalIsOwed(r.subs, r.subs.order);
    forall i | 0 <= i < |tags| ensures tags[i] in r.subs.order {
      assert tags[i] in tags;
    }
    OwedInAnyOrder(r, r.subs.order, tags);
  }

  /// The broadcast dispatcher passes on what the slowest subscriber is now owed beyond what was requested before.
  lemma BroadcastAskPassesSmallest(b: Broadcasting, t: Tag, n: nat, m: int)
    requires b.Valid() && t in b.subs.demand && SmallestOwed(ToEveryone(b).Ask(t, n).0, m)
    ensures ToEveryone(b).Ask(t, n).1 == Max(0, m - b.requested)
  {
    AskKeeps(b, t, n, t);
    var r := b.Ask(t, n).0;
    assert t in r.subs.order;
    WaitingIsSmallestOutstanding(r);
    var u :| u in r.subs.order && Outstanding(r, u) == r.waiting;
    assert ToEveryone(r).Has(u) && ToEveryone(r).Owed(u) == r.waiting;
    var v :| ToEveryone(r).Has(v) && ToEveryone(r).Owed(v) == m;
    assert v in r.subs.order;
  }

  /// What an ask passes upstream. A subscriber that is not known passes on nothing, except that the demand dispatcher
  /// reports again all that it owes.
  lemma AskPasses(d: Dispatcher, t: Tag, n: nat, tags: seq<Tag>, m: int)
    requires d.Valid() && Lists(tags, d)
    ensures var (r, up) := d.Ask(t, n);
      match d
      case OnDemand(_) => up == OwedTo(r, tags)
      case ToEveryone(b) =>
        if d.Has(t) then SmallestOwed(r, m) ==> up == Max(0, m - b.requested) else up == 0
      case ByPartition(_) => up == if d.Has(t) then n else 0
  {
    match d
    case OnDemand(subs) => DemandAskPassesTotal(subs, t, n, tags);
    case ToEveryone(b) => if d.Has(t) && SmallestOwed(d.Ask(t, n).0, m) { BroadcastAskPassesSmallest(b, t, n, m); }
    case ByPartition(_) =>
  }

  lemma {:induction false} OwedIsPart(d: Dispatcher, tags: seq<Tag>, t: Tag)
    requires d.Valid() && t in tags
    ensures OwedTo(d, tags) >= d.Owed(t)
  {
    OwedTakenOut(d, tags, t);
    OwedToNonNegative(d, Without(tags, t));
  }

  lemma {:induction false} OwedToNonNegative(d: Dispatcher, tags: seq<Tag>)
    requires d.Valid()
    ensures OwedTo(d, tags) >= 0
  {
    if tags != [] {
      OwedNonNegative(d, tags[0]);
      OwedToNonNegative(d, tags[1..]);
    }
  }

  /// Every event sent to a subscriber is charged against what it is owed, for all three dispatchers.
  lemma {:induction false} DispatchOwes(d: Dispatcher, events: seq<Event>, u: Tag)
    requires d.Valid()
    ensures var (r, batches, remaining) := d.Dispatch(events);
      && r.Valid() && (r.Has(u) <==> d.Has(u))
      && r.Owed(u) + |Delivered(batches, u)| == d.Owed(u)
      && (forall x :: x in batches ==> d.Owed(x.tag) > 0)
  {
    match d
    case OnDemand(subs) => DemandDispatchSplits(subs, events); DemandDispatchLedger(subs, events, u);
    case ToEveryone(b) => DispatchKeeps(b, events, u);
    case ByPartition(p) => DispatchLedger(p, events, u);
  }

  lemma OwedNonNegative(d: Dispatcher, u: Tag)
    requires d.Valid()
    ensures d.Owed(u) >= 0 && (!d.Has(u) ==> d.Owed(u) == 0)
  {
  }
}

module Producer {
  import opened Basics
  import opened Dispatch
  import opened Broadcast
  import P = Partition
  import opened Dispatchers
  import opened Subsequences

  datatype Producer = Producer(dispatcher: Dispatcher, buffer: seq<Event>, bufferSize: nat, keepLast: bool,
                               accumulate: bool, accumulated: int)

  /// The producer after a message, the batches it sent, and how many events it dropped.
  datatype Reply = Reply(p: Producer, batches: seq<Batch>, dropped: nat)

  function AddToBuffer(p: Producer, events: seq<Event>): Reply {
    if p.keepLast then
      var b := p.buffer + events;
      var over := Max(0, |b| - p.bufferSize);
      Reply(p.(buffer := b[over..]), [], over)
    else
      var space := Max(0, Min(p.bufferSize - |p.buffer|, |events|));
      Reply(p.(buffer := p.buffer + events[..space]), [], |events| - space)
  }

  function DispatchOrBuffer(p: Producer, events: seq<Event>): Reply {
    if !p.dispatcher.HasSubscribers() then AddToBuffer(p, events)
    else
      var (d, batches, remaining) := p.dispatcher.Dispatch(events);
      var q := p.(dispatcher := d);
      if remaining == [] then Reply(q, batches, 0)
      else
        var r := AddToBuffer(q, remaining);
        Reply(r.p, batches, r.dropped)
  }

  /// The demand an ask of `n` from `t` makes the dispatcher pass upstream.
  function Upstream(p: Producer, t: Tag, n: int): int {
    if n <= 0 then 0 else p.dispatcher.Ask(t, n).1
  }

  /// Registers the demand and drains the buffer against it.
  function AskAndDrain(p: Producer, t: Tag, n: nat): Reply {
    var (d, batches, remaining) := p.dispatcher.Ask(t, n).0.Dispatch(p.buffer);
    Reply(p.(dispatcher := d, buffer := remaining), batches, 0)
  }

  /// `produced` is what the user's callback returns, should it be called.
  function HandleAsk(p: Producer, t: Tag, n: int, produced: seq<Event>): Reply {
    if n <= 0 then Reply(p, [], 0)
    else
      var drained := AskAndDrain(p, t, n);
      var up := Upstream(p, t, n);
      if up <= 0 then drained
      else if p.accumulate then Reply(drained.p.(accumulated := p.accumulated + up), drained.batches, 0)
      else if produced == [] then drained
      else
        var r := DispatchOrBuffer(drained.p, produced);
        Reply(r.p, drained.batches + r.batches, r.dropped)
  }

  /// Whether handling the ask calls the user's callback.
  predicate Pulls(p: Producer, t: Tag, n: int) {
    Upstream(p, t, n) > 0 && !p.accumulate
  }

  function HandleCancel(p: Producer, t: Tag): Producer {
    p.(dispatcher := p.dispatcher.Cancel(t))
  }

  /// `None` when the dispatcher throws.
  function HandleSubscribe(p: Producer, t: Tag, partition: Option<int>): Option<Producer> {
    var d := p.dispatcher.Subscribe(t, partition);
    if d.Some? then Some(p.(dispatcher := d.value)) else None
  }

  function SwitchToForward(p: Producer, produced: seq<Event>): Reply {
    var q := p.(accumulate := false, accumulated := if p.accumulated > 0 then 0 else p.accumulated);
    if p.accumulated > 0 && produced != [] then DispatchOrBuffer(q, produced) else Reply(q, [], 0)
  }

  /// An overflow drops no more than it must: the oldest when the last are kept, the newest otherwise.
  lemma AddToBufferKeeps(p: Producer, events: seq<Event>)
    requires |p.buffer| <= p.bufferSize
    ensures var r := AddToBuffer(p, events);
      var all := p.buffer + events;
      && r.dropped == Max(0, |all| - p.bufferSize)
      && r.p == p.(buffer := if p.keepLast then all[r.dropped..] else all[..|all| - r.dropped])
  {
    var n := Min(p.bufferSize - |p.buffer|, |events|);
    assert p.buffer + events[..n] == (p.buffer + events)[..|p.buffer| + n];
  }

  // ---------------------------------------------------------------------------------------------
  // Demand accounting: what the producer owes falls by exactly what it sends

  lemma {:induction false} DispatchOrBufferOwes(p: Producer, events: seq<Event>, u: Tag)
    requires p.dispatcher.Valid()
    ensures var r := DispatchOrBuffer(p, events);
      && r.p.dispatcher.Valid() && (r.p.dispatcher.Has(u) <==> p.dispatcher.Has(u))
      && r.p.dispatcher.Owed(u) + |Delivered(r.batches, u)| == p.dispatcher.Owed(u)
      && (forall x :: x in r.batches ==> p.dispatcher.Owed(x.tag) > 0)
  {
    DispatchOwes(p.dispatcher, events, u);
    hide Delivered, Dispatcher.Valid, Dispatcher.Owed, Dispatcher.Has, Dispatcher.Dispatch;
  }

  lemma {:induction false} HandleAskOwes(p: Producer, t: Tag, n: nat, produced: seq<Event>, u: Tag)
    requires p.dispatcher.Valid()
    ensures var r := HandleAsk(p, t, n, produced);
      && r.p.dispatcher.Valid() && (r.p.dispatcher.Has(u) <==> p.dispatcher.Has(u))
      && r.p.dispatcher.Owed(u) + |Delivered(r.batches, u)|
         == p.dispatcher.Owed(u) + (if u == t && p.dispatcher.Has(t) then n else 0)
  {
    if n > 0 {
      AskOwes(p.dispatcher, t, n, u);
      DispatchOwes(p.dispatcher.Ask(t, n).0, p.buffer, u);
      var drained := AskAndDrain(p, t, n);
      if Pulls(p, t, n) && produced != [] {
        DispatchOrBufferOwes(drained.p, produced, u);
        DeliveredConcat(drained.batches, DispatchOrBuffer(drained.p, produced).batches, u);
      }
    }
  }

  /// A subscriber that is owed nothing and does not ask is sent no message, not even an empty one.
  lemma {:induction false} HandleAskAddresses(p: Producer, t: Tag, n: nat, produced: seq<Event>, u: Tag)
    requires p.dispatcher.Valid() && p.dispatcher.Owed(u) == 0 && u != t
    ensures forall x :: x in HandleAsk(p, t, n, produced).batches ==> x.tag != u
  {
    if n > 0 {
      AskOwes(p.dispatcher, t, n, u);
      DispatchOwes(p.dispatcher.Ask(t, n).0, p.buffer, u);
      var drained := AskAndDrain(p, t, n);
      if Pulls(p, t, n) && produced != [] {
        OwedNonNegative(drained.p.dispatcher, u);
        DispatchOrBufferOwes(drained.p, produced, u);
      }
    }
  }

  // ---------------------------------------------------------------------------------------------
  // Pulling

  /// When an ask of a subscriber calls the user's callback in forward mode: always, for the demand and the partition
  /// dispatcher; for the broadcast dispatcher exactly when the slowest subscriber is then owed more than was requested.
  lemma {:induction false} PullsIff(p: Producer, t: Tag, n: nat, m: int)
    requires p.dispatcher.Valid() && p.dispatcher.Has(t) && n > 0
    requires p.dispatcher.ToEveryone? ==> SmallestOwed(p.dispatcher.Ask(t, n).0, m)
    ensures Pulls(p, t, n) <==> !p.accumulate && (p.dispatcher.ToEveryone? ==> m > p.dispatcher.b.requested)
  {
    var d := p.dispatcher;
    match d
    case OnDemand(subs) =>
      AskOwes(d, t, n, t);
      OwedNonNegative(d, t);
      DemandAskPassesTotal(subs, t, n, subs.order);
      OwedIsPart(d.Ask(t, n).0, subs.order, t);
    case ToEveryone(b) => BroadcastAskPassesSmallest(b, t, n, m);
    case ByPartition(_) =>
  }

  lemma UpstreamNonNegative(p: Producer, t: Tag, n: int)
    requires p.dispatcher.Valid()
    ensures Upstream(p, t, n) >= 0
  {
    if n > 0 {
      match p.dispatcher
      case OnDemand(subs) =>
        SetValid(subs, t, subs.Get(t) + n);
        var s := if t in subs.demand then subs.Set(t, subs.Get(t) + n) else subs;
        SumZero(s.order, s);
      case ToEveryone(b) => AskKeeps(b, t, n, t);
      case ByPartition(_) =>
    }
  }

  // ---------------------------------------------------------------------------------------------
  // No stuck events

  /// Events wait in the buffer only when no subscriber of the demand dispatcher has demand left.
  ghost predicate NothingStuck(p: Producer) {
    p.dispatcher.OnDemand? && p.dispatcher.Valid() && (p.buffer != [] ==> p.dispatcher.subs.Total() == 0)
  }

  lemma {:induction false} DispatchOrBufferUnsticks(p: Producer, events: seq<Event>)
    requires NothingStuck(p)
    ensures NothingStuck(DispatchOrBuffer(p, events).p)
  {
    DemandDispatchSplits(p.dispatcher.subs, events);
  }

  lemma {:induction false} AskAndDrainUnsticks(p: Producer, t: Tag, n: nat)
    requires NothingStuck(p)
    ensures NothingStuck(AskAndDrain(p, t, n).p)
  {
    AskOwes(p.dispatcher, t, n, t);
    DemandDispatchSplits(p.dispatcher.Ask(t, n).0.subs, p.buffer);
  }

  lemma {:induction false} HandleAskUnsticks(p: Producer, t: Tag, n: int, produced: seq<Event>)
    requires NothingStuck(p)
    ensures NothingStuck(HandleAsk(p, t, n, produced).p)
  {
    if n > 0 {
      AskAndDrainUnsticks(p, t, n);
      DispatchOrBufferUnsticks(AskAndDrain(p, t, n).p, produced);
    }
  }

  lemma {:induction false} SwitchUnsticks(p: Producer, produced: seq<Event>)
    requires NothingStuck(p)
    ensures NothingStuck(SwitchToForward(p, produced).p)
  {
    var q := p.(accumulate := false, accumulated := if p.accumulated > 0 then 0 else p.accumulated);
    DispatchOrBufferUnsticks(q, produced);
  }

  lemma {:induction false} SubscribeUnsticks(p: Producer, t: Tag, partition: Option<int>)
    requires NothingStuck(p) && !p.dispatcher.Has(t)
    ensures NothingStuck(HandleSubscribe(p, t, partition).value)
  {
    var subs := p.dispatcher.subs;
    SetValid(subs, t, 0);
    SumUpdate(subs.order, subs, subs.Set(t, 0), t);
    SumAppend(subs.order, subs.Set(t, 0), t);
  }

  lemma {:induction false} CancelUnsticks(p: Producer, t: Tag)
    requires NothingStuck(p)
    ensures NothingStuck(HandleCancel(p, t))
  {
    var subs := p.dispatcher.subs;
    var left := subs.Delete(t);
    DeleteValid(subs, t);
    SumZero(subs.order, subs);
    SumZero(left.order, left);
  }

  lemma {:induction false} SumAppend(order: seq<Tag>, s: Subscribers, t: Tag)
    ensures SumOver(order + [t], s) == SumOver(order, s) + s.Get(t)
  {
    if order == [] {
      assert order + [t] == [t] && SumOver([t][1..], s) == 0;
    } else {
      assert (order + [t])[1..] == order[1..] + [t];
      SumAppend(order[1..], s, t);
    }
  }
}
