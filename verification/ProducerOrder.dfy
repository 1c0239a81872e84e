/// Order and conservation over every run of a producer: what was sent and what is buffered is what was
/// produced, in order, less the counted drops.

module ProducerOrder {
  import opened Basics
  import opened Dispatch
  import opened Broadcast
  import opened Dispatchers
  import opened Producer
  import opened Subsequences

  /// How many events the dispatcher can send at once.
  function Capacity(d: Dispatcher): int
    requires !d.ByPartition?
  {
    if d.OnDemand? then d.subs.Total() else d.b.waiting
  }

  /// The part of `events` that a dispatch sends rather than hands back.
  function Sent(d: Dispatcher, events: seq<Event>): seq<Event> {
    var n := |events| - |d.Dispatch(events).2|;
    events[..Max(0, Min(n, |events|))]
  }

  function SentByDispatch(p: Producer, events: seq<Event>): seq<Event> {
    if p.dispatcher.HasSubscribers() then Sent(p.dispatcher, events) else []
  }

  function SentByAsk(p: Producer, t: Tag, n: int, produced: seq<Event>): seq<Event> {
    if n <= 0 then []
    else
      Sent(p.dispatcher.Ask(t, n).0, p.buffer) +
      if Pulls(p, t, n) && produced != [] then SentByDispatch(AskAndDrain(p, t, n).p, produced) else []
  }

  /// A dispatch sends a prefix as long as capacity allows, and the batches carry exactly that prefix:
  /// split between subscribers by the demand dispatcher, whole to each of them by the broadcaster.
  lemma {:induction false} DispatchSends(d: Dispatcher, events: seq<Event>, u: Tag)
    requires d.Valid() && !d.ByPartition?
    ensures var (r, batches, remaining) := d.Dispatch(events);
      var n := Min(|events|, Capacity(d));
      && n >= 0 && Sent(d, events) == events[..n] && remaining == events[n..]
      && r.Valid() && r.OnDemand? == d.OnDemand? && !r.ByPartition? && Capacity(r) == Capacity(d) - n
      && (d.OnDemand? ==> Flatten(batches) == events[..n])
      && (d.ToEveryone? && d.Has(u) ==> Delivered(batches, u) == events[..n])
  {
    DispatchOwes(d, events, u);
    match d
    case OnDemand(subs) =>
      DemandDispatchSplits(subs, events);
      SumZero(subs.order, subs);
    case ToEveryone(b) => DispatchKeeps(b, events, u);
  }

  /// The messages of one ask carry exactly what the ledger says was sent.
  lemma {:induction false} HandleAskSends(p: Producer, t: Tag, n: int, produced: seq<Event>, u: Tag)
    requires p.dispatcher.Valid() && !p.dispatcher.ByPartition?
    ensures p.dispatcher.OnDemand? ==> Flatten(HandleAsk(p, t, n, produced).batches) == SentByAsk(p, t, n, produced)
    ensures p.dispatcher.ToEveryone? && p.dispatcher.Has(u) ==>
      Delivered(HandleAsk(p, t, n, produced).batches, u) == SentByAsk(p, t, n, produced)
  {
    hide Capacity, Dispatcher.Valid, Dispatcher.Owed, Dispatcher.Dispatch, Sent;
    if n > 0 {
      var d := p.dispatcher.Ask(t, n).0;
      AskOwes(p.dispatcher, t, n, u);
      DispatchSends(d, p.buffer, u);
      DispatchOwes(d, p.buffer, u);
      var drained := AskAndDrain(p, t, n);
      if Pulls(p, t, n) && produced != [] {
        DispatchSends(drained.p.dispatcher, produced, u);
        var r := DispatchOrBuffer(drained.p, produced);
        FlattenConcat(drained.batches, r.batches);
        DeliveredConcat(drained.batches, r.batches, u);
      }
    }
  }

  datatype Log = Log(p: Producer, produced: seq<Event>, sent: seq<Event>, dropped: nat)

  datatype Op =
    | Subscribe(tag: Tag, partition: Option<int>)
    | Ask(tag: Tag, n: int, reply: seq<Event>)
    | Cancel(tag: Tag)
    | Forward(reply: seq<Event>)

  ghost function Step(l: Log, op: Op): Log {
    match op
    case Subscribe(t, partition) =>
      var p := HandleSubscribe(l.p, t, partition);
      if p.Some? then l.(p := p.value) else l
    case Ask(t, n, reply) =>
      var r := HandleAsk(l.p, t, n, reply);
      Log(r.p, l.produced + (if Pulls(l.p, t, n) then reply else []), l.sent + SentByAsk(l.p, t, n, reply), l.dropped + r.dropped)
    case Cancel(t) => l.(p := HandleCancel(l.p, t))
    case Forward(reply) =>
      var r := SwitchToForward(l.p, reply);
      var pulls := l.p.accumulated > 0;
      Log(r.p, l.produced + (if pulls then reply else []),
          l.sent + (if pulls && reply != [] then SentByDispatch(l.p, reply) else []), l.dropped + r.dropped)
  }

  /// A demand-dispatching producer in any mode, or a broadcasting one in forward mode.
  ghost predicate Ordered(p: Producer) {
    || NothingStuck(p)
    || (p.dispatcher.ToEveryone? && p.dispatcher.Valid() && !p.accumulate && p.accumulated == 0)
  }

  ghost predicate Conserved(l: Log) {
    && Ordered(l.p)
    && Subsequence(l.sent + l.p.buffer, l.produced)
    && |l.produced| == |l.sent| + |l.p.buffer| + l.dropped
    && |l.p.buffer| <= l.p.bufferSize
  }

  /// Buffering `events` after `sent + buffer` leaves out a stretch of it: the oldest buffered or the newest.
  lemma {:induction false} AddToBufferInOrder(p: Producer, events: seq<Event>, sent: seq<Event>, produced: seq<Event>)
    requires Subsequence(sent + p.buffer + events, produced)
    requires |p.buffer| <= p.bufferSize
    ensures var r := AddToBuffer(p, events);
      && Subsequence(sent + r.p.buffer, produced)
      && |r.p.buffer| + r.dropped == |p.buffer| + |events| && |r.p.buffer| <= p.bufferSize
      && r.p == p.(buffer := r.p.buffer)
  {
    if p.keepLast { OldestGoes(p, events, sent, produced); } else { NewestGoes(p, events, sent, produced); }
  }

  lemma OldestGoes(p: Producer, events: seq<Event>, sent: seq<Event>, produced: seq<Event>)
    requires Subsequence(sent + p.buffer + events, produced) && p.keepLast
    ensures Subsequence(sent + AddToBuffer(p, events).p.buffer, produced)
  {
    hide Subsequence;
    var b := p.buffer + events;
    var over := Max(0, |b| - p.bufferSize);
    if over <= |b| {
      assert sent + p.buffer + events == sent + b[..over] + b[over..];
      Cut(sent, b[..over], b[over..], produced);
    }
  }

  lemma NewestGoes(p: Producer, events: seq<Event>, sent: seq<Event>, produced: seq<Event>)
    requires Subsequence(sent + p.buffer + events, produced) && !p.keepLast
    ensures Subsequence(sent + AddToBuffer(p, events).p.buffer, produced)
  {
    hide Subsequence;
    var space := Max(0, Min(p.bufferSize - |p.buffer|, |events|));
    var kept := p.buffer + events[..space];
    assert sent + p.buffer + events == (sent + kept) + events[space..] + [];
    Cut(sent + kept, events[space..], [], produced);
    assert sent + kept + [] == sent + kept;
  }

  /// The ledger of one producer step: `new'` came in, `sent'` went out, `r` is the producer's reply.
  ghost predicate Accounts(p: Producer, sent: seq<Event>, produced: seq<Event>, sent': seq<Event>, new': seq<Event>, r: Reply) {
    && Subsequence(sent + sent' + r.p.buffer, produced + new')
    && |sent'| + |r.p.buffer| + r.dropped == |p.buffer| + |new'| && |r.p.buffer| <= r.p.bufferSize
    && r.p.bufferSize == p.bufferSize
  }

  lemma {:induction false} SendPrefix(sent: seq<Event>, buffer: seq<Event>, events: seq<Event>, n: nat)
    requires n <= |events| && (buffer == [] || n == 0)
    ensures sent + buffer + events == sent + events[..n] + buffer + events[n..]
  {
    if n == 0 {
      assert events[..n] == [] && events[n..] == events;
    } else {
      assert events == events[..n] + events[n..];
    }
  }

  lemma {:induction false} DispatchOrBufferInOrder(p: Producer, events: seq<Event>, sent: seq<Event>, produced: seq<Event>)
    requires p.dispatcher.Valid() && !p.dispatcher.ByPartition?
    requires p.buffer == [] || Capacity(p.dispatcher) == 0
    requires Subsequence(sent + p.buffer, produced) && |p.buffer| <= p.bufferSize
    ensures Accounts(p, sent, produced, SentByDispatch(p, events), events, DispatchOrBuffer(p, events))
  {
    hide Subsequence, Sent, Dispatcher.Valid, Dispatcher.Dispatch, Capacity, Flatten, Delivered, AddToBuffer;
    Append(sent + p.buffer, produced, events);
    if !p.dispatcher.HasSubscribers() {
      AddToBufferInOrder(p, events, sent, produced + events);
      assert sent + [] == sent;
    } else {
      DispatchSends(p.dispatcher, events, 0);
      var (d, batches, remaining) := p.dispatcher.Dispatch(events);
      var n := Min(|events|, Capacity(p.dispatcher));
      SendPrefix(sent, p.buffer, events, n);
      var sent' := SentByDispatch(p, events);
      assert sent' == events[..n] && remaining == events[n..];
      if remaining == [] {
        assert sent + sent' + p.buffer + remaining == sent + sent' + p.buffer;
      } else {
        AddToBufferInOrder(p.(dispatcher := d), remaining, sent + sent', produced + events);
      }
    }
  }

  lemma {:induction false} AskAndDrainInOrder(p: Producer, t: Tag, n: nat, sent: seq<Event>, produced: seq<Event>)
    requires p.dispatcher.Valid() && !p.dispatcher.ByPartition?
    requires Subsequence(sent + p.buffer, produced) && |p.buffer| <= p.bufferSize
    ensures var r := AskAndDrain(p, t, n);
      && Accounts(p, sent, produced, Sent(p.dispatcher.Ask(t, n).0, p.buffer), [], r)
      && r.p.dispatcher.Valid() && !r.p.dispatcher.ByPartition? && r.dropped == 0
      && (r.p.buffer == [] || Capacity(r.p.dispatcher) == 0)
  {
    hide Subsequence, Sent, Dispatcher.Valid, Dispatcher.Dispatch, Capacity, Flatten, Delivered;
    var d := p.dispatcher.Ask(t, n).0;
    AskOwes(p.dispatcher, t, n, t);
    DispatchSends(d, p.buffer, 0);
    var k := Min(|p.buffer|, Capacity(d));
    assert sent + p.buffer == sent + p.buffer[..k] + p.buffer[k..];
    assert produced + [] == produced;
  }

  lemma {:induction false} HandleAskInOrder(p: Producer, t: Tag, n: int, reply: seq<Event>, sent: seq<Event>, produced: seq<Event>)
    requires p.dispatcher.Valid() && !p.dispatcher.ByPartition?
    requires Subsequence(sent + p.buffer, produced) && |p.buffer| <= p.bufferSize
    ensures Accounts(p, sent, produced, SentByAsk(p, t, n, reply), if Pulls(p, t, n) then reply else [], HandleAsk(p, t, n, reply))
  {
    if n <= 0 {
      assert sent + [] == sent && produced + [] == produced;
    } else {
      AskAndDrainInOrder(p, t, n, sent, produced);
      hide Accounts, Sent, SentByDispatch, AskAndDrain, DispatchOrBuffer, Capacity, Dispatcher.Valid, Subsequence;
      var drained := AskAndDrain(p, t, n);
      var first := Sent(p.dispatcher.Ask(t, n).0, p.buffer);
      var r := HandleAsk(p, t, n, reply);
      if Pulls(p, t, n) && reply != [] {
        AccountsSoFar(p, sent, produced, first, drained);
        DispatchOrBufferInOrder(drained.p, reply, sent + first, produced);
        AccountsFollow(p, sent, produced, first, drained, SentByDispatch(drained.p, reply), reply, DispatchOrBuffer(drained.p, reply), r);
      } else {
        assert first + [] == first;
        AccountsAlike(p, sent, produced, first, [], drained, r);
      }
    }
  }

  lemma AccountsAlike(p: Producer, sent: seq<Event>, produced: seq<Event>, sent': seq<Event>, new': seq<Event>, r: Reply, s: Reply)
    requires Accounts(p, sent, produced, sent', new', r)
    requires s.p.buffer == r.p.buffer && s.p.bufferSize == r.p.bufferSize && s.dropped == r.dropped
    ensures Accounts(p, sent, produced, sent', new', s)
  {
  }

  lemma AccountsSoFar(p: Producer, sent: seq<Event>, produced: seq<Event>, first: seq<Event>, r: Reply)
    requires Accounts(p, sent, produced, first, [], r)
    ensures Subsequence((sent + first) + r.p.buffer, produced) && |r.p.buffer| <= r.p.bufferSize
  {
    assert produced + [] == produced;
  }

  /// Two steps, the first of which brings nothing in and drops nothing.
  lemma AccountsFollow(
    p: Producer, sent: seq<Event>, produced: seq<Event>, first: seq<Event>, drained: Reply,
    second: seq<Event>, new': seq<Event>, r: Reply, whole: Reply)
    requires Accounts(p, sent, produced, first, [], drained) && drained.dropped == 0
    requires Accounts(drained.p, sent + first, produced, second, new', r)
    requires whole.p == r.p && whole.dropped == r.dropped
    ensures Accounts(p, sent, produced, first + second, new', whole)
  {
    hide Subsequence;
    assert sent + (first + second) == sent + first + second;
  }

  lemma {:induction false} StepConserves(l: Log, op: Op)
    requires Conserved(l) && (op.Subscribe? ==> !l.p.dispatcher.Has(op.tag))
    ensures Conserved(Step(l, op))
  {
    match op
    case Subscribe(t, partition) =>
      if l.p.dispatcher.OnDemand? { SubscribeUnsticks(l.p, t, partition); }
      SubscribeOwes(l.p.dispatcher, t, partition, t);
    case Ask(t, n, reply) =>
      HandleAskInOrder(l.p, t, n, reply, l.sent, l.produced);
      if l.p.dispatcher.OnDemand? { HandleAskUnsticks(l.p, t, n, reply); }
      else if n > 0 { HandleAskOwes(l.p, t, n, reply, t); }
    case Cancel(t) =>
      if l.p.dispatcher.OnDemand? { CancelUnsticks(l.p, t); }
      CancelOwes(l.p.dispatcher, t, t);
    case Forward(reply) => ForwardConserves(l, reply);
  }

  lemma {:induction false} ForwardConserves(l: Log, reply: seq<Event>)
    requires Conserved(l)
    ensures Conserved(Step(l, Forward(reply)))
  {
    assert l.sent + [] == l.sent && l.produced + [] == l.produced;
    if l.p.accumulated > 0 && reply != [] {
      var q := l.p.(accumulate := false, accumulated := 0);
      DispatchOrBufferInOrder(q, reply, l.sent, l.produced);
    }
    if l.p.dispatcher.OnDemand? { SwitchUnsticks(l.p, reply); }
  }

  ghost function Run(p: Producer, ops: seq<Op>): Log {
    if ops == [] then Log(p, [], [], 0) else Step(Run(p, ops[..|ops| - 1]), ops[|ops| - 1])
  }

  ghost predicate Admissible(p: Producer, ops: seq<Op>) {
    ops == [] ||
      var op := ops[|ops| - 1];
      Admissible(p, ops[..|ops| - 1])
      && (op.Subscribe? ==> !Run(p, ops[..|ops| - 1]).p.dispatcher.Has(op.tag))
  }

  /// Over every run from an empty buffer: sent followed by buffered is a subsequence of produced, the
  /// three counts add up, the buffer keeps its bound, and without an overflow nothing is left out.
  lemma {:induction false} RunConserves(p: Producer, ops: seq<Op>)
    requires Ordered(p) && p.buffer == [] && Admissible(p, ops)
    ensures Conserved(Run(p, ops))
    ensures var l := Run(p, ops); l.dropped == 0 ==> l.sent + l.p.buffer == l.produced
  {
    if ops != [] {
      RunConserves(p, ops[..|ops| - 1]);
      StepConserves(Run(p, ops[..|ops| - 1]), ops[|ops| - 1]);
    }
    var l := Run(p, ops);
    SameLength(l.sent + l.p.buffer, l.produced);
  }
}

/// Where the demand goes that asks pass upstream, over every run of a producer with any dispatcher.
module ProducerDemand {
  import opened Basics
  import opened Dispatch
  import opened Broadcast
  import opened Dispatchers
  import opened Producer

  /// What the callback is asked for, should it be called, is not part of these; `reply` is what it returns.
  datatype Op =
    | Subscribe(tag: Tag, partition: Option<int>)
    | Ask(tag: Tag, n: int, reply: seq<Event>)
    | Cancel(tag: Tag)
    | Forward(reply: seq<Event>)

  ghost function Step(p: Producer, op: Op): Producer {
    match op
    case Subscribe(t, partition) =>
      var q := HandleSubscribe(p, t, partition);
      if q.Some? then q.value else p
    case Ask(t, n, reply) => HandleAsk(p, t, n, reply).p
    case Cancel(t) => HandleCancel(p, t)
    case Forward(reply) => SwitchToForward(p, reply).p
  }

  /// Demand that the dispatcher passes upstream, and demand that the callback is called with.
  function Passed(p: Producer, op: Op): int { if op.Ask? then Upstream(p, op.tag, op.n) else 0 }

  function Handed(p: Producer, op: Op): int {
    match op
    case Ask(t, n, _) => if Pulls(p, t, n) then Upstream(p, t, n) else 0
    case Forward(_) => Max(0, p.accumulated)
    case _ => 0
  }

  ghost function Run(p: Producer, ops: seq<Op>): Producer {
    if ops == [] then p else Step(Run(p, ops[..|ops| - 1]), ops[|ops| - 1])
  }

  ghost function AllPassed(p: Producer, ops: seq<Op>): int {
    if ops == [] then 0 else AllPassed(p, ops[..|ops| - 1]) + Passed(Run(p, ops[..|ops| - 1]), ops[|ops| - 1])
  }

  ghost function AllHanded(p: Producer, ops: seq<Op>): int {
    if ops == [] then 0 else AllHanded(p, ops[..|ops| - 1]) + Handed(Run(p, ops[..|ops| - 1]), ops[|ops| - 1])
  }

  ghost predicate FreshTags(p: Producer, ops: seq<Op>) {
    ops == [] ||
      var op := ops[|ops| - 1];
      FreshTags(p, ops[..|ops| - 1]) && (op.Subscribe? ==> !Run(p, ops[..|ops| - 1]).dispatcher.Has(op.tag))
  }

  /// In forward mode nothing is saved up.
  ghost predicate Saves(p: Producer) { p.dispatcher.Valid() && p.accumulated >= 0 && (!p.accumulate ==> p.accumulated == 0) }

  lemma DispatchOrBufferSaves(p: Producer, events: seq<Event>)
    requires p.dispatcher.Valid()
    ensures var q := DispatchOrBuffer(p, events).p;
      q.dispatcher.Valid() && q.accumulate == p.accumulate && q.accumulated == p.accumulated
  {
    DispatchOrBufferOwes(p, events, 0);
  }

  lemma AskSaves(p: Producer, t: Tag, n: int, reply: seq<Event>)
    requires Saves(p)
    ensures var q := HandleAsk(p, t, n, reply).p;
      && Saves(q) && q.accumulate == p.accumulate
      && q.accumulated == p.accumulated + (if p.accumulate then Upstream(p, t, n) else 0)
  {
    UpstreamNonNegative(p, t, n);
    if n > 0 {
      HandleAskOwes(p, t, n, reply, t);
      AskOwes(p.dispatcher, t, n, t);
      DispatchOwes(p.dispatcher.Ask(t, n).0, p.buffer, t);
      if Pulls(p, t, n) { DispatchOrBufferSaves(AskAndDrain(p, t, n).p, reply); }
    }
  }

  lemma StepSaves(p: Producer, op: Op)
    requires Saves(p) && (op.Subscribe? ==> !p.dispatcher.Has(op.tag))
    ensures var q := Step(p, op);
      Saves(q) && Handed(p, op) + q.accumulated == Passed(p, op) + p.accumulated && (op.Forward? ==> !q.accumulate)
  {
    match op
    case Subscribe(t, partition) => if HandleSubscribe(p, t, partition).Some? { SubscribeOwes(p.dispatcher, t, partition, t); }
    case Ask(t, n, reply) =>
      UpstreamNonNegative(p, t, n);
      AskSaves(p, t, n, reply);
    case Cancel(t) => CancelOwes(p.dispatcher, t, t);
    case Forward(reply) => DispatchOrBufferSaves(p.(accumulate := false, accumulated := 0), reply);
  }

  /// No demand is lost or made up between the dispatcher and the callback: what has been passed upstream has been handed to
  /// the callback or is saved up; once the producer forwards, nothing is saved up and all of it has been handed over.
  lemma {:induction false} DemandIsHandedOn(p: Producer, ops: seq<Op>)
    requires Saves(p) && p.accumulated == 0 && FreshTags(p, ops)
    ensures Saves(Run(p, ops)) && AllHanded(p, ops) + Run(p, ops).accumulated == AllPassed(p, ops)
    ensures !Run(p, ops).accumulate ==> AllHanded(p, ops) == AllPassed(p, ops)
    ensures ops != [] && ops[|ops| - 1].Forward? ==> !Run(p, ops).accumulate
  {
    if ops != [] {
      DemandIsHandedOn(p, ops[..|ops| - 1]);
      StepSaves(Run(p, ops[..|ops| - 1]), ops[|ops| - 1]);
    }
  }

  /// A broadcasting producer in forward mode without subscribers.
  ghost predicate Idle(p: Producer) {
    p.dispatcher == ToEveryone(Broadcasting(Subscribers([], map[]), 0, 0)) && !p.accumulate && p.buffer == []
  }

  function Strand(a: Tag, b: Tag, n: nat): seq<Op> {
    [Op.Subscribe(a, None), Op.Subscribe(b, None), Op.Ask(b, n, []), Op.Cancel(a)]
  }

  lemma RunOne(p: Producer, ops: seq<Op>, op: Op)
    ensures Run(p, ops + [op]) == Step(Run(p, ops), op)
    ensures AllHanded(p, ops + [op]) == AllHanded(p, ops) + Handed(Run(p, ops), op)
  {
    assert (ops + [op])[..|ops|] == ops;
  }

  lemma TwoSubscribe(a: Tag, b: Tag)
    requires a != b
    ensures Broadcasting(Subscribers([], map[]), 0, 0).Subscribe(a).Subscribe(b)
         == Broadcasting(Subscribers([a, b], map[a := 0, b := 0]), 0, 0)
  {
    assert [] + [a] == [a] && [a] + [b] == [a, b];
  }

  lemma OneAsks(a: Tag, b: Tag, n: nat)
    requires a != b
    ensures Broadcasting(Subscribers([a, b], map[a := 0, b := 0]), 0, 0).Ask(b, n)
         == (Broadcasting(Subscribers([a, b], map[a := 0, b := n]), 0, 0), 0)
  {
    hide MinDemand;
    assert map[a := 0, b := 0][b := n] == map[a := 0, b := n];
    var asked := Subscribers([a, b], map[a := 0, b := n]);
    assert a in asked.order && asked.Get(a) == 0;
    assert MinDemand(asked.order, asked) <= 0;
  }

  lemma OneAsked(a: Tag, b: Tag, n: nat)
    requires a != b
    ensures Broadcasting(Subscribers([a, b], map[a := 0, b := n]), 0, 0).Valid()
  {
    var asked := Broadcasting(Subscribers([a, b], map[a := 0, b := n]), 0, 0);
    assert [a, b][1..] == [b] && [b][1..] == [];
    assert Distinct([b]);
    forall t ensures t in [a, b] <==> t == a || t == b {}
    assert a in asked.subs.order && asked.subs.Get(a) == 0;
  }

  lemma SubscribeStep(p: Producer, a: Tag, b: Tag)
    requires Idle(p) && a != b
    ensures var x, y := Op.Subscribe(a, None), Op.Subscribe(b, None);
      && Step(Step(p, x), y) == p.(dispatcher := ToEveryone(Broadcasting(Subscribers([a, b], map[a := 0, b := 0]), 0, 0)))
      && Handed(p, x) == 0 == Handed(Step(p, x), y)
  {
    TwoSubscribe(a, b);
    hide Broadcasting.Subscribe;
  }

  lemma AskStep(p: Producer, a: Tag, b: Tag, n: nat)
    requires p.dispatcher == ToEveryone(Broadcasting(Subscribers([a, b], map[a := 0, b := 0]), 0, 0)) && a != b && n > 0
    ensures Step(p, Op.Ask(b, n, [])) == p.(dispatcher := ToEveryone(Broadcasting(Subscribers([a, b], map[a := 0, b := n]), 0, 0)))
    ensures Handed(p, Op.Ask(b, n, [])) == 0
  {
    OneAsks(a, b, n);
    hide Broadcasting.Ask;
  }

  /// Two subscribers, of which one asks for `n` and the other, which never asked, leaves: the one that stays is owed its
  /// demand, for which the callback has not been called; and a later ask only ever calls it for what that asks.
  lemma CancelStrands(p: Producer, a: Tag, b: Tag, n: nat, k: nat)
    requires Idle(p) && a != b && n > 0 && k > 0
    ensures var q := Run(p, Strand(a, b, n));
      && AllHanded(p, Strand(a, b, n)) == 0 && q.buffer == []
      && q.dispatcher.Has(b) && q.dispatcher.Owed(b) == n && Upstream(q, b, k) == k
  {
    hide Run, AllHanded, Step, Handed, Upstream, Dispatcher.Has, Dispatcher.Owed;
    RunFour(p, Op.Subscribe(a, None), Op.Subscribe(b, None), Op.Ask(b, n, []), Op.Cancel(a));
    SubscribeStep(p, a, b);
    AskStep(Step(Step(p, Op.Subscribe(a, None)), Op.Subscribe(b, None)), a, b, n);
    LastStep(Step(Step(Step(p, Op.Subscribe(a, None)), Op.Subscribe(b, None)), Op.Ask(b, n, [])), a, b, n, k);
    assert Strand(a, b, n) == [Op.Subscribe(a, None), Op.Subscribe(b, None), Op.Ask(b, n, []), Op.Cancel(a)];
  }

  lemma RunFour(p: Producer, x: Op, y: Op, z: Op, w: Op)
    ensures Run(p, [x, y, z, w]) == Step(Step(Step(Step(p, x), y), z), w)
    ensures AllHanded(p, [x, y, z, w])
         == Handed(p, x) + Handed(Step(p, x), y) + Handed(Step(Step(p, x), y), z) + Handed(Step(Step(Step(p, x), y), z), w)
  {
    hide Step, Handed;
    RunOne(p, [], x);
    RunOne(p, [x], y);
    RunOne(p, [x, y], z);
    RunOne(p, [x, y, z], w);
    assert [] + [x] == [x] && [x] + [y] == [x, y] && [x, y] + [z] == [x, y, z] && [x, y, z] + [w] == [x, y, z, w];
  }

  lemma LastStep(p: Producer, a: Tag, b: Tag, n: nat, k: nat)
    requires a != b && n > 0 && k > 0
    requires p.dispatcher == ToEveryone(Broadcasting(Subscribers([a, b], map[a := 0, b := n]), 0, 0)) && p.buffer == []
    ensures var q := Step(p, Op.Cancel(a));
      q.buffer == [] && q.dispatcher.Has(b) && q.dispatcher.Owed(b) == n && Upstream(q, b, k) == k
    ensures Handed(p, Op.Cancel(a)) == 0
  {
    AloneAfterCancel(a, b, n, k);
    hide Broadcasting.Cancel, Broadcasting.Ask, Outstanding;
  }

  lemma AloneAfterCancel(a: Tag, b: Tag, n: nat, k: nat)
    requires a != b && n > 0 && k > 0
    ensures var left := Broadcasting(Subscribers([a, b], map[a := 0, b := n]), 0, 0).Cancel(a);
      b in left.subs.demand && Outstanding(left, b) == n && left.Ask(b, k).1 == k
  {
    var asked := Broadcasting(Subscribers([a, b], map[a := 0, b := n]), 0, 0);
    OneAsked(a, b, n);
    assert b in asked.subs.order && Outstanding(asked, b) == n;
    CancelSwallowsIff(asked, a, n);
    CancelKeeps(asked, a, b);
    var left := asked.Cancel(a);
    AskKeeps(left, b, k, b);
    var r := left.Ask(b, k).0;
    assert [a, b][1..] == [b];
    assert left.subs.order == [b];
    AskKeepsOrder(left, b, k);
    WaitingIsSmallestOutstanding(r);
  }

  lemma AskKeepsOrder(b: Broadcasting, t: Tag, n: nat)
    requires b.Valid()
    ensures b.Ask(t, n).0.subs.order == b.subs.order
  {
  }
}

/// First-in first-out per partition, over every forward-mode run of a partitioning producer.
module PartitionOrder {
  import opened Basics
  import opened Dispatch
  import opened Partition
  import opened Dispatchers
  import opened Producer

  /// `got[q]` is everything delivered to the successive owners of partition `q`.
  datatype Log = Log(p: Producer, produced: seq<Event>, got: seq<seq<Event>>)

  datatype Op =
    | Subscribe(tag: Tag, partition: Option<int>)
    | Ask(tag: Tag, n: int, reply: seq<Event>)
    | Cancel(tag: Tag)

  function ToOwner(d: Partitions, batches: seq<Batch>, q: nat): seq<Event> {
    if q < |d.owners| && d.owners[q].Some? then Delivered(batches, d.owners[q].value.tag) else []
  }

  ghost function Step(l: Log, op: Op): Log
    requires l.p.dispatcher.ByPartition?
  {
    match op
    case Subscribe(t, partition) =>
      var p := HandleSubscribe(l.p, t, partition);
      if p.Some? then l.(p := p.value) else l
    case Ask(t, n, reply) =>
      var r := HandleAsk(l.p, t, n, reply);
      Log(r.p, l.produced + (if Pulls(l.p, t, n) then reply else []),
          seq(|l.got|, q requires 0 <= q < |l.got| => l.got[q] + ToOwner(l.p.dispatcher.d, r.batches, q)))
    case Cancel(t) => l.(p := HandleCancel(l.p, t))
  }

  ghost predicate Forwarding(p: Producer) {
    && p.dispatcher.ByPartition? && p.dispatcher.Valid() && Settled(p.dispatcher.d)
    && p.buffer == [] && !p.accumulate
  }

  /// Deliveries to the owners of each partition, then what it still buffers, is its share of what was
  /// produced, in order.
  ghost predicate Fifo(l: Log) {
    && Forwarding(l.p)
    && |l.got| == |l.p.dispatcher.d.owners|
    && forall q :: 0 <= q < |l.got| ==> FifoAt(l, q)
  }

  ghost predicate FifoAt(l: Log, q: nat)
    requires l.p.dispatcher.ByPartition? && q < |l.got|
  {
    l.got[q] + l.p.dispatcher.d.Buffer(q) == Share(l.p.dispatcher.d.hash, l.produced, q)
  }

  /// From `d` to `d'`, partition `q` sent `out` to its owner and took in `share`, in order, and is settled.
  ghost predicate Moves(d: Partitions, out: seq<Event>, share: seq<Event>, d': Partitions, q: nat)
    requires q < |d.owners|
  {
    && d.Valid() && d'.Valid() && |d'.owners| == |d.owners| && d'.hash == d.hash
    && (d'.owners[q].Some? <==> d.owners[q].Some?)
    && (d.owners[q].Some? ==> d'.owners[q].value.tag == d.owners[q].value.tag)
    && out + d'.buffers[q] == d.buffers[q] + share
    && (d'.buffers[q] != [] ==> d'.Demand(q) == 0)
  }

  lemma {:induction false} MovesCompose(d: Partitions, out1: seq<Event>, d1: Partitions, out2: seq<Event>, share: seq<Event>, d2: Partitions, q: nat)
    requires q < |d.owners| && Moves(d, out1, [], d1, q) && Moves(d1, out2, share, d2, q)
    ensures Moves(d, out1 + out2, share, d2, q)
  {
    assert (out1 + out2) + d2.buffers[q] == out1 + (out2 + d2.buffers[q]);
    assert out1 + (d1.buffers[q] + share) == (out1 + d1.buffers[q]) + share;
    assert d.buffers[q] + [] == d.buffers[q];
  }

  /// One dispatch, seen from one partition.
  lemma {:induction false} DispatchMoves(d: Partitions, events: seq<Event>, q: nat)
    requires d.Valid() && q < |d.owners|
    requires events == [] || d.buffers[q] == [] || d.Demand(q) == 0
    ensures Moves(d, ToOwner(d, PartitionDispatch(d, events).1, q), Share(d.hash, events, q), AfterDispatch(d, events), q)
  {
    AfterDispatchValid(d, events);
    DispatchInOrder(d, events, q);
    OwnerGetsBucket(d, events, q);
    AfterDispatchAt(d, events, q);
    hide Partitions.Valid, DispatchAt, Buckets, Share, AfterDispatch, ToOwner;
  }

  lemma OwnerGetsBucket(d: Partitions, events: seq<Event>, q: nat)
    requires d.Valid() && q < |d.owners| && (d.owners[q].None? ==> DispatchAt(d, events, q).bucket == [])
    ensures ToOwner(d, PartitionDispatch(d, events).1, q) == DispatchAt(d, events, q).bucket
  {
    if d.owners[q].Some? {
      var t := d.owners[q].value.tag;
      OwnerOf(d, q, t);
      BucketsDeliver(d, events, |d.owners|, t);
    }
    hide Partitions.Valid, DispatchAt, Buckets;
  }

  lemma AfterDispatchAt(d: Partitions, events: seq<Event>, q: nat)
    requires q < |d.owners|
    ensures var d' := AfterDispatch(d, events);
      && |d'.owners| == |d'.buffers| == |d.owners| && d'.hash == d.hash && (d'.owners[q].Some? <==> d.owners[q].Some?)
      && (d.owners[q].Some? ==> d'.owners[q].value.tag == d.owners[q].value.tag)
      && d'.buffers[q] == DispatchAt(d, events, q).buffer
  {
    hide DispatchAt;
  }

  /// The producer once the ask is registered and the buffers are drained.
  function Drained(p: Producer, t: Tag, n: nat): (Partitions, seq<Batch>)
    requires p.dispatcher.ByPartition?
  {
    PartitionDispatch(p.dispatcher.d.Ask(t, n).0, [])
  }

  lemma {:induction false} PullerSubscribes(p: Producer, t: Tag, n: nat, reply: seq<Event>)
    requires Forwarding(p) && Pulls(p, t, n)
    ensures Drained(p, t, n).0.HasSubscribers()
  {
    var q := p.dispatcher.d.index[t];
    assert Drained(p, t, n).0.owners[q].Some?;
  }

  /// An ask runs two dispatches: the drain, then the new events if the callback was called.
  lemma {:induction false} HandleAskShape(p: Producer, t: Tag, n: int, reply: seq<Event>)
    requires Forwarding(p) && n > 0
    ensures var (d1, b1) := Drained(p, t, n);
      HandleAsk(p, t, n, reply) ==
        if Pulls(p, t, n) && reply != [] then
          var (d2, b2) := PartitionDispatch(d1, reply);
          Reply(p.(dispatcher := ByPartition(d2)), b1 + b2, 0)
        else Reply(p.(dispatcher := ByPartition(d1)), b1, 0)
  {
    var drained := AskAndDrain(p, t, n);
    assert drained == Reply(p.(dispatcher := ByPartition(Drained(p, t, n).0)), Drained(p, t, n).1, 0);
    if Pulls(p, t, n) && reply != [] {
      PullerSubscribes(p, t, n, reply);
      assert DispatchOrBuffer(drained.p, reply)
        == Reply(p.(dispatcher := ByPartition(AfterDispatch(Drained(p, t, n).0, reply))), PartitionDispatch(Drained(p, t, n).0, reply).1, 0);
    }
  }

  lemma {:induction false} DrainMoves(p: Producer, t: Tag, n: nat, q: nat)
    requires Forwarding(p) && q < |p.dispatcher.d.owners|
    ensures var (d1, b1) := Drained(p, t, n);
      Moves(p.dispatcher.d, ToOwner(p.dispatcher.d, b1, q), [], d1, q)
  {
    DispatchMoves(p.dispatcher.d.Ask(t, n).0, [], q);
  }

  /// Draining before producing restores order: an ask delivers and buffers, in order, what was buffered
  /// and then what the callback produced.
  lemma {:induction false} HandleAskMoves(p: Producer, t: Tag, n: int, reply: seq<Event>, q: nat)
    requires Forwarding(p) && n > 0 && q < |p.dispatcher.d.owners|
    ensures var r := HandleAsk(p, t, n, reply);
      && r.p.dispatcher.ByPartition?
      && Moves(p.dispatcher.d, ToOwner(p.dispatcher.d, r.batches, q),
               Share(p.dispatcher.d.hash, if Pulls(p, t, n) then reply else [], q), r.p.dispatcher.d, q)
  {
    var d := p.dispatcher.d;
    HandleAskShape(p, t, n, reply);
    DrainMoves(p, t, n, q);
    hide Drained, HandleAsk, PartitionDispatch, Forwarding;
    if Pulls(p, t, n) && reply != [] {
      var (d1, b1) := Drained(p, t, n);
      var (d2, b2) := PartitionDispatch(d1, reply);
      DispatchMoves(d1, reply, q);
      if d.owners[q].Some? { DeliveredConcat(b1, b2, d.owners[q].value.tag); }
      MovesCompose(d, ToOwner(d, b1, q), d1, ToOwner(d1, b2, q), Share(d.hash, reply, q), d2, q);
    }
  }

  lemma {:induction false} DrainedValid(p: Producer, t: Tag, n: nat, reply: seq<Event>)
    requires Forwarding(p)
    ensures var d1 := Drained(p, t, n).0;
      && d1.Valid() && |d1.owners| == |p.dispatcher.d.owners| && d1.hash == p.dispatcher.d.hash
      && AfterDispatch(d1, reply).Valid()
  {
    AskOwes(p.dispatcher, t, n, t);
    AfterDispatchValid(p.dispatcher.d.Ask(t, n).0, []);
    AfterDispatchValid(Drained(p, t, n).0, reply);
  }

  lemma {:induction false} HandleAskForwards(p: Producer, t: Tag, n: int, reply: seq<Event>)
    requires Forwarding(p)
    ensures var r := HandleAsk(p, t, n, reply);
      Forwarding(r.p) && |r.p.dispatcher.d.owners| == |p.dispatcher.d.owners| && r.p.dispatcher.d.hash == p.dispatcher.d.hash
  {
    if n > 0 {
      HandleAskShape(p, t, n, reply);
      DrainedValid(p, t, n, reply);
      SettledAfter(p, t, n, reply);
    }
  }

  lemma {:induction false} SettledAfter(p: Producer, t: Tag, n: int, reply: seq<Event>)
    requires Forwarding(p) && n > 0
    ensures HandleAsk(p, t, n, reply).p.dispatcher.ByPartition? && Settled(HandleAsk(p, t, n, reply).p.dispatcher.d)
  {
    HandleAskShape(p, t, n, reply);
    var d' := HandleAsk(p, t, n, reply).p.dispatcher.d;
    forall q | 0 <= q < |d'.owners| && d'.buffers[q] != [] ensures d'.Demand(q) == 0 {
      HandleAskMoves(p, t, n, reply, q);
    }
  }

  lemma {:induction false} AskFifo(l: Log, op: Op, q: nat)
    requires Fifo(l) && op.Ask? && q < |l.got|
    ensures Step(l, op).p.dispatcher.ByPartition? && FifoAt(Step(l, op), q)
  {
    assert FifoAt(l, q);
    var d := l.p.dispatcher.d;
    if op.n <= 0 {
      assert l.produced + [] == l.produced && l.got[q] + [] == l.got[q];
    } else {
      var r := HandleAsk(l.p, op.tag, op.n, op.reply);
      var new' := if Pulls(l.p, op.tag, op.n) then op.reply else [];
      HandleAskMoves(l.p, op.tag, op.n, op.reply, q);
      ShareConcat(d.hash, l.produced, new', q);
      Regroup(l.got[q], d.buffers[q], Share(d.hash, new', q), ToOwner(d, r.batches, q), r.p.dispatcher.d.buffers[q]);
    }
  }

  lemma {:induction false} Regroup(got: seq<Event>, buffer: seq<Event>, share: seq<Event>, out: seq<Event>, buffer': seq<Event>)
    requires out + buffer' == buffer + share
    ensures (got + out) + buffer' == (got + buffer) + share
  {
    assert (got + out) + buffer' == got + (out + buffer');
    assert got + (buffer + share) == (got + buffer) + share;
  }

  lemma {:induction false} StepFifo(l: Log, op: Op)
    requires Fifo(l) && (op.Subscribe? ==> !l.p.dispatcher.Has(op.tag))
    ensures Fifo(Step(l, op))
  {
    var l' := Step(l, op);
    if op.Ask? {
      HandleAskForwards(l.p, op.tag, op.n, op.reply);
      forall q | 0 <= q < |l'.got| ensures FifoAt(l', q) {
        AskFifo(l, op, q);
      }
    } else {
      forall q | 0 <= q < |l'.got| ensures FifoAt(l', q) {
        assert FifoAt(l, q);
      }
    }
  }

  /// The log after `ops`, when none of them throws and no tag subscribes twice.
  ghost function Run(p: Producer, ops: seq<Op>): Option<Log>
    requires Forwarding(p)
    ensures Run(p, ops).Some? ==> Run(p, ops).value.p.dispatcher.ByPartition?
  {
    if ops == [] then Some(Log(p, [], seq(|p.dispatcher.d.owners|, _ => [])))
    else
      var op := ops[|ops| - 1];
      var before := Run(p, ops[..|ops| - 1]);
      if before.None? || !Allowed(before.value.p, op) then None
      else Some(Step(before.value, op))
  }

  ghost predicate Allowed(p: Producer, op: Op)
    requires p.dispatcher.ByPartition?
  {
    && (op.Subscribe? ==> !p.dispatcher.Has(op.tag))
    && (op.Ask? && Pulls(p, op.tag, op.n) ==> Routable(p.dispatcher.d.hash, |p.dispatcher.d.owners|, op.reply))
  }

  /// Per-partition order over every forward-mode run: for each partition, deliveries to its successive
  /// owners followed by its buffer equal the produced events that hash to it.
  lemma {:induction false} RunFifo(p: Producer, ops: seq<Op>)
    requires Forwarding(p) && (forall q :: 0 <= q < |p.dispatcher.d.owners| ==> p.dispatcher.d.buffers[q] == [])
    ensures Run(p, ops).Some? ==> Fifo(Run(p, ops).value)
  {
    if ops != [] && Run(p, ops).Some? {
      RunFifo(p, ops[..|ops| - 1]);
      StepFifo(Run(p, ops[..|ops| - 1]).value, ops[|ops| - 1]);
    }
  }
}
