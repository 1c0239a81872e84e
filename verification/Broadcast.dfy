/// The broadcast dispatcher as a value: every event goes to every subscriber, at the pace of the slowest.

module Broadcast {
  import opened Basics
  import opened Dispatch

  function MinDemand(order: seq<Tag>, s: Subscribers): (m: int)
    requires order != []
    ensures forall t :: t in order ==> m <= s.Get(t)
    ensures exists t :: t in order && s.Get(t) == m
  {
    if |order| == 1 then
      assert order[0] in order;
      s.Get(order[0])
    else
      assert forall u :: u in order <==> u == order[0] || u in order[1..];
      Min(s.Get(order[0]), MinDemand(order[1..], s))
  }

  datatype Broadcasting = Broadcasting(subs: Subscribers, waiting: nat, requested: int) {
    /// What every operation keeps: some subscriber has demand 0, so `waiting` is exactly the smallest
    /// outstanding demand, and no more is waiting than was requested.
    ghost predicate Valid() {
      && subs.Valid()
      && waiting <= requested
      && (subs.order == [] ==> waiting == 0)
      && (subs.order != [] ==> exists t :: t in subs.order && subs.Get(t) == 0)
    }

    function Subscribe(t: Tag): Broadcasting {
      var shifted := if waiting > 0 then subs.Shift(waiting) else subs;
      Broadcasting(shifted.Set(t, 0), 0, requested)
    }

    /// Moves the demand common to all subscribers into `waiting`; also returns what to request upstream.
    function Sync(): (Broadcasting, int) {
      if subs.order == [] || MinDemand(subs.order, subs) <= 0 then (this, 0)
      else
        var m := MinDemand(subs.order, subs);
        var request := Max(0, waiting + m - requested);
        (Broadcasting(subs.Shift(-m), waiting + m, requested + request), request)
    }

    function Cancel(t: Tag): Broadcasting {
      var left := subs.Delete(t);
      if left.order == [] then Broadcasting(left, 0, 0)
      else Broadcasting(left, waiting, requested).Sync().0
    }

    function Ask(t: Tag, n: nat): (Broadcasting, int) {
      if t !in subs.demand then (this, 0)
      else Broadcasting(subs.Set(t, subs.Get(t) + n), waiting, requested).Sync()
    }

    function Dispatch(events: seq<Event>): (r: (Broadcasting, seq<Batch>, seq<Event>))
      ensures |r.2| <= |events|
    {
      if waiting == 0 || subs.order == [] then (this, [], events)
      else
        var n := Min(|events|, waiting);
        (Broadcasting(subs, waiting - n, requested - n), ToAll(subs.order, events[..n]), events[n..])
    }
  }

  function ToAll(order: seq<Tag>, events: seq<Event>): seq<Batch> {
    seq(|order|, i requires 0 <= i < |order| => Batch(order[i], events))
  }

  lemma {:induction false} ToAllDelivers(order: seq<Tag>, events: seq<Event>, t: Tag)
    requires Distinct(order)
    ensures Delivered(ToAll(order, events), t) == if t in order then events else []
  {
    if order != [] {
      assert ToAll(order, events)[1..] == ToAll(order[1..], events);
      ToAllDelivers(order[1..], events, t);
      assert order == [order[0]] + order[1..];
    }
  }

  /// Demand the dispatcher still owes `t`.
  function Outstanding(b: Broadcasting, t: Tag): int {
    if t in b.subs.demand then b.subs.Get(t) + b.waiting else 0
  }

  /// `waiting` is exactly the smallest outstanding demand.
  lemma {:induction false} WaitingIsSmallestOutstanding(b: Broadcasting)
    requires b.Valid() && b.subs.order != []
    ensures forall t :: t in b.subs.order ==> b.waiting <= Outstanding(b, t)
    ensures exists t :: t in b.subs.order && Outstanding(b, t) == b.waiting
  {
    var t :| t in b.subs.order && b.subs.Get(t) == 0;
    assert Outstanding(b, t) == b.waiting;
  }

  lemma {:induction false} SyncKeeps(b: Broadcasting, u: Tag)
    requires b.subs.Valid() && b.waiting <= b.requested && (b.subs.order == [] ==> b.waiting == 0)
    ensures var r := b.Sync();
      && r.0.Valid() && r.0.subs.order == b.subs.order && r.0.subs.demand.Keys == b.subs.demand.Keys
      && Outstanding(r.0, u) == Outstanding(b, u)
      && r.0.requested == b.requested + r.1 && r.1 == Max(0, r.0.waiting - b.requested)
  {
    if b.subs.order != [] {
      var m := MinDemand(b.subs.order, b.subs);
      var t :| t in b.subs.order && b.subs.Get(t) == m;
      assert b.Sync().0.subs.Get(t) == 0;
    }
  }

  /// Subscribing hands the common demand back first, so nobody's outstanding demand moves.
  lemma {:induction false} SubscribeKeeps(b: Broadcasting, t: Tag, u: Tag)
    requires b.Valid() && t !in b.subs.demand
    ensures var r := b.Subscribe(t);
      && r.Valid() && r.subs.demand.Keys == b.subs.demand.Keys + {t}
      && Outstanding(r, u) == if u == t then 0 else Outstanding(b, u)
  {
    SubscribeValid(b, t);
    hide Subscribers.Valid;
  }

  lemma SubscribeValid(b: Broadcasting, t: Tag)
    requires b.Valid() && t !in b.subs.demand
    ensures b.Subscribe(t).Valid()
  {
    hide Distinct;
    var shifted := if b.waiting > 0 then b.subs.Shift(b.waiting) else b.subs;
    SetValid(shifted, t, 0);
    assert b.Subscribe(t).subs.order == shifted.order + [t];
    assert t in b.Subscribe(t).subs.order && b.Subscribe(t).subs.Get(t) == 0;
  }

  lemma {:induction false} CancelKeeps(b: Broadcasting, t: Tag, u: Tag)
    requires b.Valid()
    ensures var r := b.Cancel(t);
      && r.Valid() && r.subs.demand.Keys == b.subs.demand.Keys - {t}
      && Outstanding(r, u) == (if u == t then 0 else Outstanding(b, u))
      && r.requested == if r.subs.order == [] then 0 else Max(b.requested, r.waiting)
  {
    hide Distinct, Without, Broadcasting.Sync;
    DeleteValid(b.subs, t);
    var left := b.subs.Delete(t);
    if left.order != [] {
      SyncKeeps(Broadcasting(left, b.waiting, b.requested), u);
    }
  }

  /// The smallest demand owed to a subscriber other than `t`.
  ghost predicate SmallestBut(b: Broadcasting, t: Tag, m: int) {
    && (forall u :: u in b.subs.order && u != t ==> m <= Outstanding(b, u))
    && exists u :: u in b.subs.order && u != t && Outstanding(b, u) == m
  }

  /// When others stay, a cancel counts as requested all that the slowest of them is owed, although nobody is told of it.
  /// So demand is swallowed exactly when that is more than was requested before.
  lemma CancelSwallowsIff(b: Broadcasting, t: Tag, m: int)
    requires b.Valid() && SmallestBut(b, t, m)
    ensures b.Cancel(t).waiting == m && b.Cancel(t).requested == Max(b.requested, m)
    ensures b.Cancel(t).requested > b.requested <==> m > b.requested
  {
    var r := b.Cancel(t);
    var u :| u in b.subs.order && u != t && Outstanding(b, u) == m;
    CancelKeeps(b, t, u);
    assert u in r.subs.order;
    WaitingIsSmallestOutstanding(r);
    var w :| w in r.subs.order && Outstanding(r, w) == r.waiting;
    CancelKeeps(b, t, w);
  }

  lemma {:induction false} AskKeeps(b: Broadcasting, t: Tag, n: nat, u: Tag)
    requires b.Valid()
    ensures var r := b.Ask(t, n);
      && r.0.Valid() && r.0.subs.demand.Keys == b.subs.demand.Keys
      && Outstanding(r.0, u) == Outstanding(b, u) + (if u == t && t in b.subs.demand then n else 0)
      && r.0.requested == b.requested + r.1
      && r.1 == if t in b.subs.demand then Max(0, r.0.waiting - b.requested) else 0
  {
    if t in b.subs.demand {
      SetValid(b.subs, t, b.subs.Get(t) + n);
      SyncKeeps(Broadcasting(b.subs.Set(t, b.subs.Get(t) + n), b.waiting, b.requested), u);
    }
  }

  /// Every subscriber is sent the same prefix, paid for out of its outstanding demand.
  lemma {:induction false} DispatchKeeps(b: Broadcasting, events: seq<Event>, u: Tag)
    requires b.Valid()
    ensures var (r, batches, remaining) := b.Dispatch(events);
      var n := Min(|events|, b.waiting);
      && r.Valid() && r.subs == b.subs && remaining == events[n..] && r.waiting == b.waiting - n
      && Delivered(batches, u) == (if u in b.subs.demand then events[..n] else [])
      && Outstanding(r, u) + |Delivered(batches, u)| == Outstanding(b, u)
      && (forall x :: x in batches ==> Outstanding(b, x.tag) > 0 && x.events == events[..n])
  {
    var n := Min(|events|, b.waiting);
    ToAllDelivers(b.subs.order, events[..n], u);
    assert events[0..] == events;
    forall x | x in b.Dispatch(events).1 ensures Outstanding(b, x.tag) > 0 && x.events == events[..n] {
      assert x in ToAll(b.subs.order, events[..n]);
    }
  }

  // ---------------------------------------------------------------------------------------------
  // The ledger of a whole run

  datatype Op = Subscribe(tag: Tag) | Ask(tag: Tag, n: nat) | Cancel(tag: Tag) | Dispatch(events: seq<Event>)

  /// `stream` is everything broadcast so far; `asked`, `joined` and `got` record, for every tag that ever
  /// subscribed, its total demand, the stream position at which it joined, and what it was sent.
  datatype Ledger = Ledger(b: Broadcasting, stream: seq<Event>, asked: map<Tag, nat>, joined: map<Tag, nat>,
                           got: map<Tag, seq<Event>>)

  const EmptyLedger := Ledger(Broadcasting(Subscribers([], map[]), 0, 0), [], map[], map[], map[])

  ghost predicate Enabled(l: Ledger, op: Op) {
    op.Subscribe? ==> op.tag !in l.joined
  }

  ghost function Step(l: Ledger, op: Op): Ledger {
    match op
    case Subscribe(t) =>
      l.(b := l.b.Subscribe(t), asked := l.asked[t := 0], joined := l.joined[t := |l.stream|], got := l.got[t := []])
    case Ask(t, n) =>
      l.(b := l.b.Ask(t, n).0, asked := if t in l.b.subs.demand && t in l.asked then l.asked[t := l.asked[t] + n] else l.asked)
    case Cancel(t) => l.(b := l.b.Cancel(t))
    case Dispatch(events) =>
      var (b, batches, remaining) := l.b.Dispatch(events);
      l.(b := b, stream := l.stream + events[..|events| - |remaining|],
         got := map t | t in l.got :: l.got[t] + Delivered(batches, t))
  }

  ghost predicate Segment(l: Ledger, t: Tag)
    requires t in l.joined && t in l.got
  {
    && l.joined[t] + |l.got[t]| <= |l.stream|
    && l.got[t] == l.stream[l.joined[t]..l.joined[t] + |l.got[t]|]
  }

  /// What a subscriber was sent, plus what it is still owed, is what it asked for; and it has been sent
  /// the whole stream from where it joined.
  ghost predicate PaidUp(l: Ledger, t: Tag)
    requires t in l.joined && t in l.got && t in l.asked
  {
    |l.got[t]| + Outstanding(l.b, t) == l.asked[t] && l.joined[t] + |l.got[t]| == |l.stream|
  }

  ghost predicate Shape(l: Ledger) {
    && l.b.Valid()
    && l.joined.Keys == l.asked.Keys == l.got.Keys
    && l.b.subs.demand.Keys <= l.joined.Keys
  }

  ghost predicate Fair(l: Ledger, t: Tag)
    requires Shape(l)
  {
    (t in l.joined ==> Segment(l, t)) && (t in l.b.subs.demand ==> PaidUp(l, t))
  }

  ghost predicate Balanced(l: Ledger) {
    Shape(l) && forall t :: Fair(l, t)
  }

  lemma {:induction false} StepShape(l: Ledger, op: Op)
    requires Shape(l) && Enabled(l, op)
    ensures Shape(Step(l, op))
  {
    hide Broadcasting.Valid, Broadcasting.Subscribe, Broadcasting.Ask, Broadcasting.Cancel, Broadcasting.Dispatch, Delivered;
    match op
    case Subscribe(t) => SubscribeKeeps(l.b, t, t);
    case Ask(t, n) => AskKeeps(l.b, t, n, t);
    case Cancel(t) => CancelKeeps(l.b, t, t);
    case Dispatch(events) => DispatchKeeps(l.b, events, 0);
  }

  lemma SegmentGrows(stream: seq<Event>, more: seq<Event>, from: nat, got: seq<Event>)
    requires from + |got| <= |stream| && got == stream[from..from + |got|]
    ensures got == (stream + more)[from..from + |got|]
    ensures from + |got| == |stream| ==> got + more == (stream + more)[from..from + |got + more|]
  {
    if from + |got| == |stream| { assert (stream + more)[from..] == stream[from..] + more; }
  }

  lemma {:induction false} DispatchFair(l: Ledger, events: seq<Event>, u: Tag)
    requires Shape(l) && Fair(l, u) && Shape(Step(l, Op.Dispatch(events)))
    ensures Fair(Step(l, Op.Dispatch(events)), u)
  {
    hide Broadcasting.Valid, Broadcasting.Dispatch, Delivered, Outstanding;
    DispatchKeeps(l.b, events, u);
    if u in l.joined {
      var n := Min(|events|, l.b.waiting);
      var more := Delivered(l.b.Dispatch(events).1, u);
      assert Step(l, Op.Dispatch(events)).stream == l.stream + events[..n];
      assert Step(l, Op.Dispatch(events)).got[u] == l.got[u] + more;
      SegmentGrows(l.stream, events[..n], l.joined[u], l.got[u]);
      if u !in l.b.subs.demand { assert l.got[u] + more == l.got[u]; }
    }
  }

  /// The broadcast ledger at one tag, for one operation.
  lemma {:induction false} StepFair(l: Ledger, op: Op, u: Tag)
    requires Shape(l) && Fair(l, u) && Enabled(l, op) && Shape(Step(l, op))
    ensures Fair(Step(l, op), u)
  {
    hide Broadcasting.Valid, Broadcasting.Subscribe, Broadcasting.Ask, Broadcasting.Cancel, Broadcasting.Dispatch, Delivered;
    match op
    case Subscribe(t) => SubscribeKeeps(l.b, t, u);
    case Ask(t, n) => AskKeeps(l.b, t, n, u);
    case Cancel(t) => CancelKeeps(l.b, t, u);
    case Dispatch(events) => DispatchFair(l, events, u);
  }

  ghost function Run(ops: seq<Op>): Ledger {
    if ops == [] then EmptyLedger else Step(Run(ops[..|ops| - 1]), ops[|ops| - 1])
  }

  /// A run with fresh tags: no tag subscribes twice.
  ghost predicate Admissible(ops: seq<Op>) {
    ops == [] || (Admissible(ops[..|ops| - 1]) && Enabled(Run(ops[..|ops| - 1]), ops[|ops| - 1]))
  }

  /// The broadcast ledger over every run: each subscriber t has delivered(t) + demand(t) + waiting =
  /// asked(t), some subscriber has demand 0, waiting <= requested, and everyone who ever subscribed was
  /// sent one contiguous segment of the common stream from its join point.
  lemma {:induction false} RunBalanced(ops: seq<Op>)
    requires Admissible(ops)
    ensures Balanced(Run(ops))
  {
    if ops != [] {
      var l := Run(ops[..|ops| - 1]);
      RunBalanced(ops[..|ops| - 1]);
      StepShape(l, ops[|ops| - 1]);
      forall u ensures Fair(Run(ops), u) {
        assert Fair(l, u);
        StepFair(l, ops[|ops| - 1], u);
      }
    }
  }
}
