/// Demand dispatching as values: who holds how much demand, and what a dispatch hands to whom.
/// DispatcherClasses.dfy holds the classes that compute these functions.

module Dispatch {
  import opened Basics

  /// An event is opaque; only equality is available.
  type Event(==, !new)

  type Tag = nat

  /// One "events" message: a batch for the subscription `tag`.
  datatype Batch = Batch(tag: Tag, events: seq<Event>)

  /// All events of a list of batches, in dispatch order.
  function Flatten(batches: seq<Batch>): seq<Event> {
    if batches == [] then [] else batches[0].events + Flatten(batches[1..])
  }

  /// What one subscription receives from a list of batches, in order.
  function Delivered(batches: seq<Batch>, t: Tag): seq<Event> {
    if batches == [] then []
    else (if batches[0].tag == t then batches[0].events else []) + Delivered(batches[1..], t)
  }

  lemma {:induction false} DeliveredConcat(a: seq<Batch>, b: seq<Batch>, t: Tag)
    ensures Delivered(a + b, t) == Delivered(a, t) + Delivered(b, t)
  {
    if a == [] {
      assert a + b == b;
    } else {
      assert (a + b)[1..] == a[1..] + b;
      DeliveredConcat(a[1..], b, t);
    }
  }

  lemma {:induction false} FlattenConcat(a: seq<Batch>, b: seq<Batch>)
    ensures Flatten(a + b) == Flatten(a) + Flatten(b)
  {
    if a == [] {
      assert a + b == b;
    } else {
      assert (a + b)[1..] == a[1..] + b;
      FlattenConcat(a[1..], b);
    }
  }

  lemma {:induction false} NotAddressed(batches: seq<Batch>, t: Tag)
    requires forall b :: b in batches ==> b.tag != t
    ensures Delivered(batches, t) == []
  {
    if batches != [] {
      assert batches[0] in batches;
      NotAddressed(batches[1..], t);
    }
  }

  // ---------------------------------------------------------------------------------------------
  // Subscribers: an insertion-ordered map from tags to demand.  Maps iterate in insertion order, and
  // the demand dispatcher breaks ties by that order.

  datatype Subscribers = Subscribers(order: seq<Tag>, demand: map<Tag, int>) {
    ghost predicate Valid() {
      && Distinct(order)
      && (forall t :: t in order <==> t in demand)
      && (forall t :: t in demand ==> demand[t] >= 0)
    }

    /// Demand held for `t`; an absent subscriber holds none.
    function Get(t: Tag): int { if t in demand then demand[t] else 0 }

    function Set(t: Tag, n: int): Subscribers {
      Subscribers(if t in demand then order else order + [t], demand[t := n])
    }

    function Delete(t: Tag): Subscribers {
      Subscribers(Without(order, t), demand - {t})
    }

    /// Adds `delta` to every subscriber's demand.
    function Shift(delta: int): Subscribers {
      Subscribers(order, map t | t in demand :: demand[t] + delta)
    }

    function Total(): int { SumOver(order, this) }
  }

  function SumOver(order: seq<Tag>, subs: Subscribers): int {
    if order == [] then 0 else subs.Get(order[0]) + SumOver(order[1..], subs)
  }

  lemma {:induction false} SetValid(s: Subscribers, t: Tag, n: nat)
    requires s.Valid()
    ensures s.Set(t, n).Valid()
  {
    if t !in s.demand { DistinctAppend(s.order, t); }
  }

  lemma {:induction false} DeleteValid(s: Subscribers, t: Tag)
    requires s.Valid()
    ensures s.Delete(t).Valid()
  {
    WithoutKeeps(s.order, t);
  }

  /// Changing one entry changes the sum over a duplicate-free list by exactly the difference.
  lemma {:induction false} SumUpdate(order: seq<Tag>, s: Subscribers, s': Subscribers, t: Tag)
    requires Distinct(order)
    requires forall u :: u != t ==> s.Get(u) == s'.Get(u)
    ensures SumOver(order, s') == SumOver(order, s) + if t in order then s'.Get(t) - s.Get(t) else 0
  {
    if order != [] {
      assert order == [order[0]] + order[1..];
      if order[0] == t { assert t !in order[1..]; }
      SumUpdate(order[1..], s, s', t);
    }
  }

  lemma {:induction false} SumZero(order: seq<Tag>, s: Subscribers)
    requires forall t :: t in order ==> s.Get(t) >= 0
    ensures SumOver(order, s) >= 0
    ensures SumOver(order, s) == 0 <==> forall t :: t in order ==> s.Get(t) == 0
  {
    if order != [] {
      SumZero(order[1..], s);
      assert forall u :: u in order <==> u == order[0] || u in order[1..];
    }
  }

  // ---------------------------------------------------------------------------------------------
  // Demand dispatcher

  /// The first subscriber, in insertion order, of the largest positive demand.
  function Best(order: seq<Tag>, s: Subscribers): Option<Tag> {
    if order == [] then None
    else
      var n := |order| - 1;
      var before := Best(order[..n], s);
      if s.Get(order[n]) > (if before.Some? then s.Get(before.value) else 0) then Some(order[n]) else before
  }

  lemma {:induction false} BestIsFirstLargest(order: seq<Tag>, s: Subscribers)
    ensures Best(order, s).None? <==> forall t :: t in order ==> s.Get(t) <= 0
    ensures Best(order, s).Some? ==>
      var t := Best(order, s).value;
      && t in order && s.Get(t) > 0 && (forall u :: u in order ==> s.Get(u) <= s.Get(t))
      && exists i :: 0 <= i < |order| && order[i] == t && (forall j :: 0 <= j < i ==> s.Get(order[j]) < s.Get(t))
  {
    if order != [] {
      var n := |order| - 1;
      BestIsFirstLargest(order[..n], s);
      assert forall u :: u in order <==> u in order[..n] || u == order[n];
      var t := order[n];
      if s.Get(t) > (if Best(order[..n], s).Some? then s.Get(Best(order[..n], s).value) else 0) {
        assert order[n] == t && forall j :: 0 <= j < n ==> order[j] in order[..n];
      } else if Best(order[..n], s).Some? {
        var i :| 0 <= i < |order[..n]| && order[..n][i] == Best(order[..n], s).value
          && (forall j :: 0 <= j < i ==> s.Get(order[..n][j]) < s.Get(Best(order[..n], s).value));
        assert order[i] == Best(order, s).value;
        assert forall j :: 0 <= j < i ==> order[..n][j] == order[j];
      }
    }
  }

  datatype Outcome = Outcome(batches: seq<Batch>, subs: Subscribers, remaining: seq<Event>)

  /// The multi-subscriber loop: serve the subscriber of largest demand until events or demand run out.
  function Greedy(s: Subscribers, events: seq<Event>): Outcome
    decreases |events|
  {
    var best := Best(s.order, s);
    BestIsFirstLargest(s.order, s);
    if events == [] || best.None? then Outcome([], s, events)
    else
      var t := best.value;
      var n := Min(s.Get(t), |events|);
      var rest := Greedy(s.Set(t, s.Get(t) - n), events[n..]);
      Outcome([Batch(t, events[..n])] + rest.batches, rest.subs, rest.remaining)
  }

  /// The single-subscriber fast path: one batch, possibly empty, whenever there is demand.
  function FastPath(s: Subscribers, events: seq<Event>): Outcome
    requires |s.order| == 1
  {
    var t := s.order[0];
    var n := Min(s.Get(t), |events|);
    if s.Get(t) > 0 then
      Outcome([Batch(t, events[..n])], s.Set(t, s.Get(t) - n), events[n..])
    else Outcome([], s, events)
  }

  function DemandDispatch(s: Subscribers, events: seq<Event>): Outcome {
    if |s.order| == 1 then FastPath(s, events) else Greedy(s, events)
  }

  /// What one round of the loop does to the subscriber it serves and to everyone else.
  lemma {:induction false} OneServed(s: Subscribers, events: seq<Event>) returns (t: Tag, n: nat, s': Subscribers)
    requires s.Valid() && events != [] && Best(s.order, s).Some?
    ensures t == Best(s.order, s).value && n == Min(s.Get(t), |events|) && s' == s.Set(t, s.Get(t) - n)
    ensures t in s.order && 0 < n && s'.Valid() && s'.order == s.order && s'.Total() == s.Total() - n
    ensures forall u :: s'.Get(u) == if u == t then s.Get(t) - n else s.Get(u)
    ensures forall u :: s.Get(u) <= s.Get(t)
    ensures Greedy(s, events) == var rest := Greedy(s', events[n..]);
      Outcome([Batch(t, events[..n])] + rest.batches, rest.subs, rest.remaining)
  {
    BestIsFirstLargest(s.order, s);
    t := Best(s.order, s).value;
    n := Min(s.Get(t), |events|);
    s' := s.Set(t, s.Get(t) - n);
    BestIsLargestOfAll(s, t);
    SetChanges(s, t, s.Get(t) - n);
    hide Distinct, SumOver, Subscribers.Set, Subscribers.Valid, Subscribers.Total;
  }

  lemma BestIsLargestOfAll(s: Subscribers, t: Tag)
    requires s.Valid() && s.Get(t) >= 0 && forall u :: u in s.order ==> s.Get(u) <= s.Get(t)
    ensures forall u :: s.Get(u) <= s.Get(t)
  {
    hide Distinct;
  }

  lemma SetChanges(s: Subscribers, t: Tag, k: nat)
    requires s.Valid() && t in s.order
    ensures var s' := s.Set(t, k);
      && s'.Valid() && s'.order == s.order && s'.Total() == s.Total() + k - s.Get(t)
      && forall u :: s'.Get(u) == if u == t then k else s.Get(u)
  {
    SetValid(s, t, k);
    SumUpdate(s.order, s, s.Set(t, k), t);
    hide Distinct, SumOver;
  }

  /// `o` cuts `events` after the first min(|events|, total demand) of them and charges the total for those.
  ghost predicate Splits(s: Subscribers, events: seq<Event>, o: Outcome) {
    var n := Min(|events|, s.Total());
    && 0 <= n
    && o.subs.Valid() && o.subs.order == s.order
    && Flatten(o.batches) == events[..n] && o.remaining == events[n..]
    && o.subs.Total() == s.Total() - n
  }

  lemma {:induction false} SplitsCons(s: Subscribers, s': Subscribers, events: seq<Event>, b: Batch, n: nat, o: Outcome)
    requires n <= |events| && n <= s.Total() && b.events == events[..n] && s'.order == s.order && s'.Total() == s.Total() - n
    requires Splits(s', events[n..], o)
    ensures Splits(s, events, Outcome([b] + o.batches, o.subs, o.remaining))
  {
    var m := Min(|events[n..]|, s'.Total());
    assert events[..n] + events[n..][..m] == events[..n + m];
    assert events[n..][m..] == events[n + m..];
    assert ([b] + o.batches)[1..] == o.batches;
  }

  lemma {:induction false} GreedySplits(s: Subscribers, events: seq<Event>)
    requires s.Valid()
    ensures Splits(s, events, Greedy(s, events))
    decreases |events|
  {
    if events == [] || Best(s.order, s).None? {
      SumZero(s.order, s);
      BestIsFirstLargest(s.order, s);
      assert events[0..] == events;
    } else {
      var t, n, s' := OneServed(s, events);
      GreedySplits(s', events[n..]);
      SplitsCons(s, s', events, Batch(t, events[..n]), n, Greedy(s', events[n..]));
    }
  }

  lemma {:induction false} GreedyLedger(s: Subscribers, events: seq<Event>, t: Tag)
    requires s.Valid()
    ensures Greedy(s, events).subs.Get(t) + |Delivered(Greedy(s, events).batches, t)| == s.Get(t)
    ensures forall b :: b in Greedy(s, events).batches ==> 0 < |b.events| <= s.Get(b.tag)
    decreases |events|
  {
    if events != [] && Best(s.order, s).Some? {
      var u, n, s' := OneServed(s, events);
      GreedyLedger(s', events[n..], t);
    }
  }

  /// Dispatch cuts its input into consecutive batches that together carry min(|events|, total demand)
  /// events; the rest is handed back untouched, and total demand falls by exactly what was dispatched.
  lemma {:induction false} DemandDispatchSplits(s: Subscribers, events: seq<Event>)
    requires s.Valid()
    ensures Splits(s, events, DemandDispatch(s, events))
  {
    if |s.order| == 1 { FastPathSplits(s, events); } else { GreedySplits(s, events); }
  }

  lemma OnlyOneCounts(s: Subscribers)
    requires |s.order| == 1
    ensures s.Total() == s.Get(s.order[0])
  {
    assert SumOver(s.order[1..], s) == 0;
  }

  lemma FastPathSplits(s: Subscribers, events: seq<Event>)
    requires s.Valid() && |s.order| == 1
    ensures Splits(s, events, FastPath(s, events))
  {
    var t := s.order[0];
    OnlyOneCounts(s);
    assert t in s.order;
    var n := Min(s.Get(t), |events|);
    var s' := s.Set(t, s.Get(t) - n);
    SetValid(s, t, s.Get(t) - n);
    OnlyOneCounts(s');
    hide Distinct, SumOver;
    var batches := [Batch(t, events[..n])];
    assert batches[1..] == [] && Flatten(batches) == events[..n] + Flatten([]);
    assert events[..n] + [] == events[..n] && events[0..] == events;
  }

  /// Per subscriber: demand falls by exactly what it is sent, and only subscribers with demand are sent
  /// anything.
  lemma {:induction false} DemandDispatchLedger(s: Subscribers, events: seq<Event>, t: Tag)
    requires s.Valid()
    ensures DemandDispatch(s, events).subs.Get(t) + |Delivered(DemandDispatch(s, events).batches, t)| == s.Get(t)
    ensures forall b :: b in DemandDispatch(s, events).batches ==> s.Get(b.tag) > 0
  {
    GreedyLedger(s, events, t);
  }

  /// Subscribers are served in order of falling demand, each at most once, and every batch but the last
  /// takes the whole demand of its subscriber; whoever is served outranks whoever is not.
  ghost predicate ServesLargestFirst(s: Subscribers, bs: seq<Batch>) {
    && (forall i, j :: 0 <= i < j < |bs| ==> bs[i].tag != bs[j].tag && s.Get(bs[i].tag) >= s.Get(bs[j].tag))
    && (forall i :: 0 <= i < |bs| - 1 ==> |bs[i].events| == s.Get(bs[i].tag))
    && (forall i, t :: 0 <= i < |bs| && Unserved(bs, t) ==> s.Get(t) <= s.Get(bs[i].tag))
  }

  ghost predicate Unserved(bs: seq<Batch>, t: Tag) {
    forall b :: b in bs ==> b.tag != t
  }

  lemma {:induction false} GreedyServesLargestFirst(s: Subscribers, events: seq<Event>)
    requires s.Valid()
    ensures ServesLargestFirst(s, Greedy(s, events).batches)
    decreases |events|
  {
    if events != [] && Best(s.order, s).Some? {
      var u, n, s' := OneServed(s, events);
      GreedyServesLargestFirst(s', events[n..]);
      GreedyLedger(s', events[n..], u);
      var rest := Greedy(s', events[n..]).batches;
      if rest != [] {
        assert events[n..] != [];
        assert Unserved(rest, u);
      }
      ServesFirst(s, s', Batch(u, events[..n]), rest);
    }
  }

  lemma {:induction false} ServesFirst(s: Subscribers, s': Subscribers, b: Batch, rest: seq<Batch>)
    requires forall t :: s.Get(t) <= s.Get(b.tag)
    requires forall t :: t != b.tag ==> s'.Get(t) == s.Get(t)
    requires rest != [] ==> |b.events| == s.Get(b.tag) && Unserved(rest, b.tag)
    requires ServesLargestFirst(s', rest)
    ensures ServesLargestFirst(s, [b] + rest)
  {
    hide Subscribers.Get;
    var bs := [b] + rest;
    assert forall i :: 1 <= i < |bs| ==> bs[i] == rest[i - 1] && bs[i] in rest;
    ServedBeforeRest(s, s', b, rest);
  }

  lemma ServedBeforeRest(s: Subscribers, s': Subscribers, b: Batch, rest: seq<Batch>)
    requires forall t :: s.Get(t) <= s.Get(b.tag)
    requires forall t :: t != b.tag ==> s'.Get(t) == s.Get(t)
    requires rest != [] ==> Unserved(rest, b.tag)
    requires forall i, t :: 0 <= i < |rest| && Unserved(rest, t) ==> s'.Get(t) <= s'.Get(rest[i].tag)
    ensures forall i, t :: 0 <= i < |[b] + rest| && Unserved([b] + rest, t) ==> s.Get(t) <= s.Get(([b] + rest)[i].tag)
  {
    hide Subscribers.Get;
    var bs := [b] + rest;
    forall i, t | 0 <= i < |bs| && Unserved(bs, t) ensures s.Get(t) <= s.Get(bs[i].tag) {
      UnservedLater(b, rest, t);
      if i > 0 { assert bs[i] == rest[i - 1] && rest[i - 1] in rest; }
    }
  }

  lemma UnservedLater(b: Batch, rest: seq<Batch>, t: Tag)
    requires Unserved([b] + rest, t)
    ensures t != b.tag && Unserved(rest, t)
  {
    assert b in [b] + rest;
    forall x | x in rest ensures x in [b] + rest {}
  }

  /// With one subscriber the fast path and the loop agree on every nonempty input; on the empty input
  /// they differ exactly when there is demand, by one empty batch.
  lemma {:induction false} FastPathRefinesLoop(s: Subscribers, events: seq<Event>)
    requires s.Valid() && |s.order| == 1
    ensures FastPath(s, events) == Greedy(s, events) <==> events != [] || s.Total() == 0
    ensures events == [] && s.Total() > 0 ==> FastPath(s, events).batches == [Batch(s.order[0], [])]
  {
    var t := s.order[0];
    assert s.order == [t];
    OnlyOneCounts(s);
    assert t in s.order;
    BestIsFirstLargest(s.order, s);
    if events != [] && s.Get(t) > 0 {
      var n := Min(s.Get(t), |events|);
      var s' := s.Set(t, s.Get(t) - n);
      assert Greedy(s', events[n..]) == Outcome([], s', events[n..]) by {
        BestIsFirstLargest(s'.order, s');
      }
    }
  }
}
