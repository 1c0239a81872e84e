/// The stage actors as objects: each handler computes the value function of Producer.dfy or Stages.dfy.

module StageClasses {
  import opened Basics
  import opened Dispatch
  import opened Dispatchers
  import Producer
  import opened Consumers

  lemma InOneGo(a: seq<Batch>, b: seq<Batch>, c: seq<Batch>)
    ensures (a + b) + c == a + (b + c)
  {
  }

  /// The dispatcher is held by value; DispatcherClasses proves that the dispatcher objects compute it.
  class ProducerStage<S> {
    const handleDemand: (int, S) -> (seq<Event>, S)
    const bufferSize: nat
    const keepLast: bool
    var userState: S
    var dispatcher: Dispatcher
    var buffer: seq<Event>
    var accumulate: bool
    var accumulated: int
    var outbox: seq<Batch>

    ghost function Value(): Producer.Producer reads this {
      Producer.Producer(dispatcher, buffer, bufferSize, keepLast, accumulate, accumulated)
    }

    /// This object after a reply: its value, and the batches appended to what it has sent.
    twostate predicate Gave(r: Producer.Reply) reads this {
      Value() == r.p && outbox == old(outbox) + r.batches
    }

    constructor (handleDemand: (int, S) -> (seq<Event>, S), userState: S, dispatcher: Dispatcher, bufferSize: nat, keepLast: bool, accumulate: bool)
      ensures Value() == Producer.Producer(dispatcher, [], bufferSize, keepLast, accumulate, 0) && outbox == []
      ensures this.userState == userState && this.handleDemand == handleDemand
    {
      this.handleDemand, this.userState, this.dispatcher := handleDemand, userState, dispatcher;
      this.bufferSize, this.keepLast, this.accumulate := bufferSize, keepLast, accumulate;
      buffer, accumulated, outbox := [], 0, [];
    }

    method HandleSubscribe(t: Tag, partition: Option<int>) returns (ok: bool)
      modifies this`dispatcher
      ensures ok <==> Producer.HandleSubscribe(old(Value()), t, partition).Some?
      ensures Value() == if ok then Producer.HandleSubscribe(old(Value()), t, partition).value else old(Value())
    {
      var d := dispatcher.Subscribe(t, partition);
      if d.None? { return false; }
      dispatcher := d.value;
      ok := true;
    }

    method HandleCancel(t: Tag)
      modifies this`dispatcher
      ensures Value() == Producer.HandleCancel(old(Value()), t)
    {
      dispatcher := dispatcher.Cancel(t);
    }

    method AskAndDrain(t: Tag, demand: nat) returns (upstream: int)
      requires demand > 0
      modifies this`dispatcher, this`buffer, this`outbox
      ensures Gave(Producer.AskAndDrain(old(Value()), t, demand)) && upstream == Producer.Upstream(old(Value()), t, demand)
    {
      dispatcher, upstream := dispatcher.Ask(t, demand).0, dispatcher.Ask(t, demand).1;
      var (d, batches, remaining) := dispatcher.Dispatch(buffer);
      dispatcher, buffer := d, remaining;
      SendDispatched(batches);
    }

    method HandleAsk(t: Tag, demand: int)
      modifies this
      ensures var reply := handleDemand(Producer.Upstream(old(Value()), t, demand), old(userState));
        && Gave(Producer.HandleAsk(old(Value()), t, demand, reply.0))
        && userState == if Producer.Pulls(old(Value()), t, demand) then reply.1 else old(userState)
    {
      assert outbox + [] == outbox;
      if demand <= 0 { return; }
      var upstream := AskAndDrain(t, demand);
      hide Dispatcher.Ask, Dispatcher.Dispatch, Producer.AskAndDrain, Producer.DispatchOrBuffer;
      ghost var drained := Producer.AskAndDrain(old(Value()), t, demand).batches;
      if upstream > 0 {
        if accumulate {
          accumulated := accumulated + upstream;
          return;
        }
        var (events, newState) := handleDemand(upstream, userState);
        userState := newState;
        if |events| > 0 {
          ghost var more := Producer.DispatchOrBuffer(Value(), events).batches;
          DispatchOrBuffer(events);
          InOneGo(old(outbox), drained, more);
        }
      }
    }

    method SwitchToForward()
      modifies this
      ensures var reply := handleDemand(old(accumulated), old(userState));
        && Gave(Producer.SwitchToForward(old(Value()), reply.0))
        && userState == if old(accumulated) > 0 then reply.1 else old(userState)
    {
      accumulate := false;
      assert outbox + [] == outbox;
      if accumulated > 0 {
        var demand := accumulated;
        accumulated := 0;
        var (events, newState) := handleDemand(demand, userState);
        userState := newState;
        if |events| > 0 { DispatchOrBuffer(events); }
      }
    }

    method DispatchOrBuffer(events: seq<Event>)
      modifies this`dispatcher, this`buffer, this`outbox
      ensures Gave(Producer.DispatchOrBuffer(old(Value()), events))
    {
      assert outbox + [] == outbox;
      if !dispatcher.HasSubscribers() {
        AddToBuffer(events);
        return;
      }
      var (d, batches, remaining) := dispatcher.Dispatch(events);
      dispatcher := d;
      SendDispatched(batches);
      if |remaining| > 0 { AddToBuffer(remaining); }
    }

    method AddToBuffer(events: seq<Event>)
      modifies this`buffer
      ensures Value() == Producer.AddToBuffer(old(Value()), events).p
    {
      if keepLast {
        buffer := buffer + events;
        if |buffer| > bufferSize { buffer := buffer[|buffer| - bufferSize..]; }
      } else {
        var space := bufferSize - |buffer|;
        if space > 0 { buffer := buffer + events[..Min(space, |events|)]; }
        else { assert buffer + events[..0] == buffer; }
      }
    }

    method SendDispatched(batches: seq<Batch>)
      modifies this`outbox
      ensures outbox == old(outbox) + batches
    {
      for i := 0 to |batches|
        invariant outbox == old(outbox) + batches[..i]
      {
        outbox := outbox + [batches[i]];
      }
      assert batches[..|batches|] == batches;
    }
  }

  /// A message a consumer sends to its producer.
  datatype ToProducer = AskFor(tag: Tag, n: int) | CancelSub(tag: Tag)

  class ConsumerStage {
    var subscriptions: map<Tag, Endpoint>
    var outbox: seq<ToProducer>

    constructor ()
      ensures subscriptions == map[] && outbox == []
    {
      subscriptions, outbox := map[], [];
    }

    /// The effect of one reaction on subscription `t`, and on nothing else.
    twostate predicate Reacted(t: Tag, r: Reaction) reads this {
      && subscriptions == old(subscriptions)[t := r.e]
      && outbox == old(outbox) + if r.ask.Some? then [AskFor(t, r.ask.value)] else []
    }

    method SubscribeToProducer(t: Tag, maxDemand: nat, minDemand: int)
      requires t !in subscriptions
      modifies this`subscriptions
      ensures subscriptions == old(subscriptions)[t := Fresh(maxDemand, minDemand, false)]
    {
      subscriptions := subscriptions[t := Endpoint(0, maxDemand, minDemand, false, 0, 0)];
    }

    method AskProducer(t: Tag, demand: int)
      requires t in subscriptions
      modifies this
      ensures Reacted(t, Consumers.AskFor(old(subscriptions)[t], demand))
    {
      var sub := subscriptions[t];
      subscriptions := subscriptions[t := sub.(pending := sub.pending + demand)];
      outbox := outbox + [AskFor(t, demand)];
    }

    method DeferredAsk(t: Tag)
      modifies this
      ensures t !in old(subscriptions) ==> subscriptions == old(subscriptions) && outbox == old(outbox)
      ensures t in old(subscriptions) ==> Reacted(t, FirstAsk(old(subscriptions)[t]))
    {
      if t in subscriptions { AskProducer(t, subscriptions[t].maxDemand); }
    }

    /// Events for an unknown subscription are ignored.
    method HandleEvents(t: Tag, events: seq<Event>)
      modifies this
      ensures t !in old(subscriptions) ==> subscriptions == old(subscriptions) && outbox == old(outbox)
      ensures t in old(subscriptions) ==> Reacted(t, OnEvents(old(subscriptions)[t], |events|))
    {
      if t !in subscriptions { return; }
      var sub := subscriptions[t];
      var pending := sub.pending - |events|;
      if pending < 0 { pending := 0; }
      subscriptions := subscriptions[t := sub.(pending := pending)];
      if pending <= sub.minDemand {
        AskProducer(t, sub.maxDemand - pending);
        assert subscriptions == old(subscriptions)[t := OnEvents(sub, |events|).e];
      } else {
        assert outbox + [] == outbox;
      }
    }

    method CancelSubscription(t: Tag) returns (found: bool)
      modifies this
      ensures found <==> t in old(subscriptions)
      ensures subscriptions == old(subscriptions) - {t}
      ensures outbox == old(outbox) + if found then [CancelSub(t)] else []
    {
      if t !in subscriptions {
        assert outbox + [] == outbox && subscriptions - {t} == subscriptions;
        return false;
      }
      outbox := outbox + [CancelSub(t)];
      subscriptions := subscriptions - {t};
      found := true;
    }
  }

  type Worker = nat

  datatype Sub = Sub(pending: int, maxDemand: nat, minDemand: int)

  ghost function WorkersOf(workers: map<Worker, Tag>, t: Tag): set<Worker> {
    set w | w in workers && workers[w] == t
  }

  ghost function Active(workers: map<Worker, Tag>, t: Tag): nat { |WorkersOf(workers, t)| }

  lemma {:induction false} WorkerStarted(workers: map<Worker, Tag>, w: Worker, t: Tag, u: Tag)
    requires w !in workers
    ensures Active(workers[w := t], u) == Active(workers, u) + if u == t then 1 else 0
  {
    assert WorkersOf(workers[w := t], u) == if u == t then WorkersOf(workers, u) + {w} else WorkersOf(workers, u);
  }

  lemma {:induction false} WorkerStopped(workers: map<Worker, Tag>, w: Worker, u: Tag)
    requires w in workers
    ensures Active(workers - {w}, u) == Active(workers, u) - if u == workers[w] then 1 else 0
  {
    assert WorkersOf(workers - {w}, u) == if u == workers[w] then WorkersOf(workers, u) - {w} else WorkersOf(workers, u);
  }

  /// How many of the events could not be given a worker.
  function Failures(spawned: seq<Option<Worker>>): (n: nat)
    ensures n <= |spawned|
  {
    if spawned == [] then 0
    else Failures(spawned[..|spawned| - 1]) + if spawned[|spawned| - 1].None? then 1 else 0
  }

  /// The started workers are new and different from each other.
  ghost predicate Startable(workers: map<Worker, Tag>, spawned: seq<Option<Worker>>) {
    spawned != [] ==>
      && (spawned[0].Some? ==> spawned[0].value !in workers && spawned[0] !in spawned[1..])
      && Startable(workers, spawned[1..])
  }

  lemma {:induction false} StartableLater(workers: map<Worker, Tag>, spawned: seq<Option<Worker>>, t: Tag)
    requires spawned != [] && spawned[0].Some? && Startable(workers, spawned)
    ensures Startable(workers[spawned[0].value := t], spawned[1..])
  {
    StillStartable(workers, spawned[0].value, spawned[1..], t);
  }

  lemma {:induction false} StillStartable(workers: map<Worker, Tag>, w: Worker, spawned: seq<Option<Worker>>, t: Tag)
    requires Startable(workers, spawned) && Some(w) !in spawned
    ensures Startable(workers[w := t], spawned)
  {
    if spawned != [] { StillStartable(workers, w, spawned[1..], t); }
  }

  class ConsumerSupervisor {
    var subscriptions: map<Tag, Sub>
    var released: map<Tag, nat>
    var workers: map<Worker, Tag>
    var outbox: seq<ToProducer>

    constructor ()
      ensures Valid() && subscriptions == map[] && workers == map[] && outbox == []
    {
      subscriptions, released, workers, outbox := map[], map[], map[], [];
    }

    ghost predicate Valid() reads this { released.Keys == subscriptions.Keys }

    /// Subscription `t` as the value the credit argument is about.
    ghost function View(t: Tag): Endpoint
      reads this
      requires Valid() && t in subscriptions
    {
      var sub := subscriptions[t];
      Endpoint(sub.pending, sub.maxDemand, sub.minDemand, true, released[t], Active(workers, t))
    }

    twostate predicate OthersSame(t: Tag) reads this
      requires old(Valid()) && Valid()
    {
      && subscriptions.Keys == old(subscriptions.Keys)
      && forall u :: u in subscriptions && u != t ==> View(u) == old(View(u))
    }

    twostate predicate Asked(t: Tag, ask: Option<int>) reads this {
      outbox == old(outbox) + if ask.Some? then [AskFor(t, ask.value)] else []
    }

    method SubscribeToProducer(t: Tag, maxDemand: nat, minDemand: int)
      requires Valid() && t !in subscriptions
      modifies this
      ensures Valid() && workers == old(workers) && outbox == old(outbox)
      ensures subscriptions == old(subscriptions)[t := Sub(0, maxDemand, minDemand)]
      ensures released == old(released)[t := 0]
    {
      subscriptions := subscriptions[t := Sub(0, maxDemand, minDemand)];
      released := released[t := 0];
    }

    method MaybeAskForMore(t: Tag)
      requires Valid() && t in subscriptions
      modifies this`subscriptions, this`released, this`outbox
      ensures Valid() && OthersSame(t)
      ensures View(t) == AskForReleased(old(View(t))).e && Asked(t, AskForReleased(old(View(t))).ask)
    {
      var sub := subscriptions[t];
      assert outbox + [] == outbox;
      if released[t] >= sub.minDemand {
        var amount := released[t];
        released := released[t := 0];
        subscriptions := subscriptions[t := sub.(pending := sub.pending + amount)];
        outbox := outbox + [AskFor(t, amount)];
      }
    }

    /// Starts one worker per event; an event whose worker cannot be started frees its slot.
    method StartWorkers(t: Tag, spawned: seq<Option<Worker>>)
      requires Valid() && t in subscriptions && Startable(workers, spawned)
      modifies this`workers, this`released
      ensures Valid() && released == old(released)[t := old(released)[t] + Failures(spawned)]
      ensures forall u :: Active(workers, u) == old(Active(workers, u)) + if u == t then |spawned| - Failures(spawned) else 0
    {
      for i := 0 to |spawned|
        invariant Valid() && Startable(workers, spawned[i..])
        invariant released == old(released)[t := old(released)[t] + Failures(spawned[..i])]
        invariant forall u :: Active(workers, u) == old(Active(workers, u)) + if u == t then i - Failures(spawned[..i]) else 0
      {
        assert spawned[..i + 1][..i] == spawned[..i] && spawned[i..][1..] == spawned[i + 1..];
        match spawned[i]
        case Some(w) =>
          forall u ensures Active(workers[w := t], u) == Active(workers, u) + if u == t then 1 else 0 {
            WorkerStarted(workers, w, t, u);
          }
          StartableLater(workers, spawned[i..], t);
          workers := workers[w := t];
        case None =>
          released := released[t := released[t] + 1];
      }
      assert spawned[..|spawned|] == spawned;
    }

    method Receive(t: Tag, k: nat)
      requires Valid() && t in subscriptions
      modifies this`subscriptions
      ensures Valid() && OthersSame(t) && View(t) == Received(old(View(t)), k)
    {
      var sub := subscriptions[t];
      var pending := sub.pending - k;
      if pending < 0 { pending := 0; }
      subscriptions := subscriptions[t := sub.(pending := pending)];
    }

    method StartAll(t: Tag, spawned: seq<Option<Worker>>)
      requires Valid() && t in subscriptions && Startable(workers, spawned)
      modifies this`workers, this`released
      ensures Valid() && OthersSame(t)
      ensures View(t) == (var v := old(View(t));
        v.(active := v.active + |spawned| - Failures(spawned), released := v.released + Failures(spawned)))
    {
      hide Active, Failures, Startable;
      StartWorkers(t, spawned);
    }

    /// `spawned[i]` is the worker started for event i, or nothing if starting it threw.
    method HandleEvents(t: Tag, spawned: seq<Option<Worker>>)
      requires Valid() && t in subscriptions && Startable(workers, spawned)
      modifies this
      ensures Valid() && OthersSame(t)
      ensures var r := OnSupervisedEvents(old(View(t)), |spawned|, Failures(spawned));
        View(t) == r.e && Asked(t, r.ask)
    {
      hide Active, Failures, Startable;
      Receive(t, |spawned|);
      StartAll(t, spawned);
      MaybeAskForMore(t);
    }

    /// A "down" message of an unknown worker, or one of a cancelled subscription, asks for nothing.
    method HandleWorkerDown(w: Worker)
      requires Valid()
      modifies this
      ensures Valid() && workers == old(workers) - {w}
      ensures w !in old(workers) || old(workers)[w] !in old(subscriptions) ==>
        subscriptions == old(subscriptions) && released == old(released) && outbox == old(outbox)
      ensures w in old(workers) && old(workers)[w] in old(subscriptions) ==>
        var t := old(workers)[w];
        var r := OnWorkerDown(old(View(t)));
        OthersSame(t) && View(t) == r.e && Asked(t, r.ask)
    {
      if w !in workers {
        assert workers - {w} == workers;
        return;
      }
      var t := workers[w];
      forall u ensures Active(workers - {w}, u) == Active(workers, u) - if u == t then 1 else 0 {
        WorkerStopped(workers, w, u);
      }
      workers := workers - {w};
      if t in subscriptions {
        released := released[t := released[t] + 1];
        MaybeAskForMore(t);
      }
    }
  }
}
