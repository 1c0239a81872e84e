/// One producer, any number of consumer and supervising subscriptions, and the messages between them.

/// The consumer side of one subscription, as a value.
module Consumers {
  import opened Basics
  import opened Dispatch

  /// `supervises` tells a supervising subscription, which starts one worker per event, from a plain one.
  datatype Endpoint = Endpoint(pending: int, maxDemand: nat, minDemand: int, supervises: bool, released: int, active: int)

  /// The endpoint after a message and, if it asked for more, how much.
  datatype Reaction = Reaction(e: Endpoint, ask: Option<int>)

  function Fresh(maxDemand: nat, minDemand: int, supervises: bool): Endpoint {
    Endpoint(0, maxDemand, minDemand, supervises, 0, 0)
  }

  function AskFor(e: Endpoint, n: int): Reaction {
    Reaction(e.(pending := e.pending + n), Some(n))
  }

  /// The deferred first ask.
  function FirstAsk(e: Endpoint): Reaction {
    AskFor(e, e.maxDemand)
  }

  function Received(e: Endpoint, k: nat): Endpoint {
    e.(pending := Max(0, e.pending - k))
  }

  /// A plain consumer tops its demand up to the maximum once it has fallen to the minimum.
  function OnEvents(e: Endpoint, k: nat): Reaction {
    var r := Received(e, k);
    if r.pending <= r.minDemand then AskFor(r, r.maxDemand - r.pending) else Reaction(r, None)
  }

  /// A supervising consumer asks for as many events as worker slots were released, once enough were.
  function AskForReleased(e: Endpoint): Reaction {
    if e.released >= e.minDemand then AskFor(e.(released := 0), e.released) else Reaction(e, None)
  }

  /// Of `k` events, `failed` could not be given a worker and free their slot at once.
  function OnSupervisedEvents(e: Endpoint, k: nat, failed: nat): Reaction
    requires failed <= k
  {
    var r := Received(e, k);
    AskForReleased(r.(active := r.active + k - failed, released := r.released + failed))
  }

  function OnWorkerDown(e: Endpoint): Reaction {
    AskForReleased(e.(active := e.active - 1, released := e.released + 1))
  }

  /// What an endpoint keeps once its first ask is out.
  ghost predicate InCredit(e: Endpoint) {
    && 0 <= e.pending <= e.maxDemand
    && (e.supervises ==>
          && 0 <= e.active && 0 <= e.released
          && e.pending + e.active + e.released == e.maxDemand
          && (e.released == 0 || e.released < e.minDemand))
    && (!e.supervises && e.minDemand < e.maxDemand ==> e.pending > e.minDemand)
  }

  /// One message never takes an endpoint out of credit; it asks back for no more than it gave up, and
  /// the clamp at zero plays no part.
  lemma {:induction false} ReactionsInCredit(e: Endpoint, k: nat, failed: nat)
    requires InCredit(e) && k <= e.pending && failed <= k
    ensures Received(e, k).pending == e.pending - k
    ensures !e.supervises ==>
      var r := OnEvents(e, k);
      InCredit(r.e) && r.e.pending == e.pending - k + (if r.ask.Some? then r.ask.value else 0) && (r.ask.Some? ==> r.ask.value >= 0)
    ensures e.supervises ==>
      var r := OnSupervisedEvents(e, k, failed);
      InCredit(r.e) && r.e.pending == e.pending - k + (if r.ask.Some? then r.ask.value else 0) && (r.ask.Some? ==> r.ask.value >= 0)
    ensures e.supervises && e.active > 0 ==>
      var r := OnWorkerDown(e);
      InCredit(r.e) && r.e.pending == e.pending + (if r.ask.Some? then r.ask.value else 0) && (r.ask.Some? ==> r.ask.value >= 0)
  {
  }

  /// The first ask is for the maximum. A plain consumer asks exactly when its demand has fallen to the minimum, and then
  /// tops it up to the maximum; a supervising one asks exactly when enough slots are free, and then for all of them.
  lemma AsksTopUp(e: Endpoint, k: nat, failed: nat)
    requires InCredit(e) && k <= e.pending && failed <= k
    ensures FirstAsk(e.(pending := 0)).e.pending == e.maxDemand
    ensures !e.supervises ==>
      var r := OnEvents(e, k);
      (r.ask.Some? <==> e.pending - k <= e.minDemand) && (r.ask.Some? ==> r.e.pending == r.e.maxDemand)
    ensures e.supervises ==>
      var r := OnSupervisedEvents(e, k, failed);
      (r.ask.Some? <==> e.released + failed >= e.minDemand) && (r.ask.Some? ==> r.e.pending + r.e.active == r.e.maxDemand)
    ensures e.supervises && e.active > 0 ==>
      var r := OnWorkerDown(e);
      (r.ask.Some? <==> e.released + 1 >= e.minDemand) && (r.ask.Some? ==> r.e.pending + r.e.active == r.e.maxDemand)
  {
    ReactionsInCredit(e, k, failed);
  }

  /// A supervisor without workers is waiting for events, so it cannot starve.
  lemma SupervisorNeverStarves(e: Endpoint)
    requires InCredit(e) && e.supervises && e.active == 0
    requires 0 <= e.minDemand <= e.maxDemand && e.maxDemand > 0
    ensures e.pending > 0
  {
  }
}

module Stages {
  import opened Basics
  import opened Dispatch
  import Partition
  import opened Dispatchers
  import opened Producer
  import opened Consumers

  datatype Ask = Ask(tag: Tag, n: int)

  /// `asks` travel to the producer in any order: an ask may overtake others through the synchronous path.
  /// `mail` holds, per subscription, the batches under way, in order.  `calling`, `deferred` and `asked`
  /// follow a subscription from its subscribe call over its timer to its first ask.
  datatype Stage = Stage(p: Producer, ends: map<Tag, Endpoint>, asks: seq<Ask>, mail: map<Tag, seq<seq<Event>>>,
                         calling: set<Tag>, deferred: set<Tag>, asked: set<Tag>, cancels: set<Tag>, used: set<Tag>)

  datatype Step =
    | Subscribe(tag: Tag, maxDemand: nat, minDemand: int, supervises: bool)
    | Accept(tag: Tag, partition: Option<int>)
    | TimerFires(tag: Tag)
    | AskArrives(i: nat, reply: seq<Event>)
    | EventsArrive(tag: Tag, failed: nat)
    | WorkerDown(tag: Tag)
    | Unsubscribe(tag: Tag)
    | CancelArrives(tag: Tag)
    | Forward(reply: seq<Event>)

  function Box(mail: map<Tag, seq<seq<Event>>>, t: Tag): seq<seq<Event>> { if t in mail then mail[t] else [] }

  function Mail(s: Stage, t: Tag): seq<seq<Event>> { Box(s.mail, t) }

  function Post(mail: map<Tag, seq<seq<Event>>>, batches: seq<Batch>): map<Tag, seq<seq<Event>>>
    decreases |batches|
  {
    if batches == [] then mail
    else
      var b := batches[0];
      Post(mail[b.tag := Box(mail, b.tag) + [b.events]], batches[1..])
  }

  function Join(mail: seq<seq<Event>>): seq<Event> {
    if mail == [] then [] else mail[0] + Join(mail[1..])
  }

  function AsksInFlight(asks: seq<Ask>, t: Tag): int {
    if asks == [] then 0 else (if asks[0].tag == t then asks[0].n else 0) + AsksInFlight(asks[1..], t)
  }

  function EventsInFlight(s: Stage, t: Tag): nat { |Join(Mail(s, t))| }

  /// A consumer's ask goes under way; an endpoint takes its new value.
  function React(s: Stage, t: Tag, r: Reaction): Stage {
    s.(ends := s.ends[t := r.e], asks := if r.ask.Some? then s.asks + [Ask(t, r.ask.value)] else s.asks)
  }

  /// The callback's events can be dispatched without the hash throwing.
  ghost predicate Dispatchable(p: Producer, events: seq<Event>) {
    p.dispatcher.ByPartition? ==> Partition.Routable(p.dispatcher.d.hash, |p.dispatcher.d.owners|, events)
  }

  ghost predicate Enabled(s: Stage, step: Step) {
    match step
    case Subscribe(t, _, _, _) => t !in s.used
    case Accept(t, _) => t in s.calling
    case TimerFires(t) => t in s.deferred
    case AskArrives(i, reply) => i < |s.asks| && Dispatchable(s.p, reply)
    case EventsArrive(t, failed) => Mail(s, t) != [] && failed <= |Mail(s, t)[0]|
    case WorkerDown(t) => t in s.ends && s.ends[t].supervises && s.ends[t].active > 0
    case Unsubscribe(t) => t in s.ends
    case CancelArrives(t) => t in s.cancels
    case Forward(reply) => Dispatchable(s.p, reply)
  }

  ghost function Next(s: Stage, step: Step): Stage
    requires Enabled(s, step)
  {
    match step
    case Subscribe(t, maxDemand, minDemand, supervises) =>
      s.(ends := s.ends[t := Fresh(maxDemand, minDemand, supervises)], calling := s.calling + {t}, used := s.used + {t})
    case Accept(t, partition) =>
      var p := HandleSubscribe(s.p, t, partition);
      if p.Some? then s.(p := p.value, calling := s.calling - {t}, deferred := s.deferred + {t})
      else s.(calling := s.calling - {t})
    case TimerFires(t) =>
      var s' := s.(deferred := s.deferred - {t});
      if t in s.ends then React(s', t, FirstAsk(s.ends[t])).(asked := s.asked + {t}) else s'
    case AskArrives(i, reply) =>
      var r := HandleAsk(s.p, s.asks[i].tag, s.asks[i].n, reply);
      s.(p := r.p, asks := s.asks[..i] + s.asks[i + 1..], mail := Post(s.mail, r.batches))
    case EventsArrive(t, failed) =>
      var k := |Mail(s, t)[0]|;
      var s' := s.(mail := s.mail[t := Mail(s, t)[1..]]);
      if t !in s.ends then s'
      else React(s', t, if s.ends[t].supervises then OnSupervisedEvents(s.ends[t], k, failed) else OnEvents(s.ends[t], k))
    case WorkerDown(t) => React(s, t, OnWorkerDown(s.ends[t]))
    case Unsubscribe(t) => s.(ends := s.ends - {t}, cancels := s.cancels + {t})
    case CancelArrives(t) => s.(p := HandleCancel(s.p, t), cancels := s.cancels - {t})
    case Forward(reply) =>
      var r := SwitchToForward(s.p, reply);
      s.(p := r.p, mail := Post(s.mail, r.batches))
  }

  // ---------------------------------------------------------------------------------------------
  // Messages under way

  lemma {:induction false} PostJoins(mail: map<Tag, seq<seq<Event>>>, batches: seq<Batch>, t: Tag)
    ensures Join(Box(Post(mail, batches), t)) == Join(Box(mail, t)) + Delivered(batches, t)
    decreases |batches|
  {
    if batches == [] {
      assert Join(Box(mail, t)) + [] == Join(Box(mail, t));
    } else {
      var b := batches[0];
      var mail' := mail[b.tag := Box(mail, b.tag) + [b.events]];
      PostJoins(mail', batches[1..], t);
      JoinAppend(Box(mail, b.tag), b.events);
      hide Join;
      if b.tag == t {
        assert Delivered(batches, t) == b.events + Delivered(batches[1..], t);
        assert Join(Box(mail, t)) + b.events + Delivered(batches[1..], t) == Join(Box(mail, t)) + Delivered(batches, t);
      } else {
        assert Box(mail', t) == Box(mail, t);
      }
    }
  }

  lemma {:induction false} PostLeaves(mail: map<Tag, seq<seq<Event>>>, batches: seq<Batch>, t: Tag)
    requires forall b :: b in batches ==> b.tag != t
    ensures Box(Post(mail, batches), t) == Box(mail, t)
    decreases |batches|
  {
    if batches != [] {
      var b := batches[0];
      assert b in batches;
      PostLeaves(mail[b.tag := Box(mail, b.tag) + [b.events]], batches[1..], t);
    }
  }

  lemma {:induction false} JoinAppend(box: seq<seq<Event>>, last: seq<Event>)
    ensures Join(box + [last]) == Join(box) + last
  {
    if box == [] {
      assert box + [last] == [last] && Join([last][1..]) == [];
    } else {
      assert (box + [last])[1..] == box[1..] + [last];
      JoinAppend(box[1..], last);
    }
  }

  lemma {:induction false} AsksConcat(a: seq<Ask>, b: seq<Ask>, t: Tag)
    ensures AsksInFlight(a + b, t) == AsksInFlight(a, t) + AsksInFlight(b, t)
  {
    if a == [] {
      assert a + b == b;
    } else {
      assert (a + b)[1..] == a[1..] + b;
      AsksConcat(a[1..], b, t);
    }
  }

  lemma {:induction false} AskRemoved(asks: seq<Ask>, i: nat, t: Tag)
    requires i < |asks|
    ensures AsksInFlight(asks[..i] + asks[i + 1..], t) == AsksInFlight(asks, t) - if asks[i].tag == t then asks[i].n else 0
  {
    AsksConcat(asks[..i], asks[i + 1..], t);
    AsksConcat(asks[..i], asks[i..], t);
    assert asks[..i] + asks[i..] == asks;
    assert asks[i..][1..] == asks[i + 1..];
  }

  lemma {:induction false} NoAsks(asks: seq<Ask>, t: Tag)
    requires forall a :: a in asks ==> a.tag != t
    ensures AsksInFlight(asks, t) == 0
  {
    if asks != [] {
      assert asks[0] in asks;
      NoAsks(asks[1..], t);
    }
  }

  lemma {:induction false} AsksNonNegative(asks: seq<Ask>, t: Tag)
    requires forall a :: a in asks ==> a.n >= 0
    ensures AsksInFlight(asks, t) >= 0
  {
    if asks != [] {
      assert asks[0] in asks;
      AsksNonNegative(asks[1..], t);
    }
  }

  // ---------------------------------------------------------------------------------------------
  // Credit

  /// The bookkeeping of who is where in its life.
  ghost predicate Shape(s: Stage) {
    && s.p.dispatcher.Valid()
    && (forall a :: a in s.asks ==> a.n >= 0 && a.tag in s.asked)
    && s.calling !! s.deferred && s.calling !! s.asked && s.deferred !! s.asked
    && s.ends.Keys <= s.used && s.calling <= s.used && s.deferred <= s.used && s.asked <= s.used
    && s.cancels <= s.used && s.cancels !! s.ends.Keys
  }

  /// Consumer credit of one subscription: everything it has asked for and not yet received is an ask under
  /// way, demand held by the producer, or an event under way.
  ghost predicate Credit(s: Stage, t: Tag) {
    && (s.p.dispatcher.Has(t) ==> t in s.used && t !in s.calling)
    && (t !in s.asked ==> Mail(s, t) == [] && s.p.dispatcher.Owed(t) == 0)
    && (t in s.ends ==>
          && (t in s.asked || t in s.deferred ==> s.p.dispatcher.Has(t))
          && s.ends[t].pending == AsksInFlight(s.asks, t) + s.p.dispatcher.Owed(t) + EventsInFlight(s, t)
          && (if t in s.asked then InCredit(s.ends[t])
              else s.ends[t] == Fresh(s.ends[t].maxDemand, s.ends[t].minDemand, s.ends[t].supervises)))
  }

  ghost predicate Conserved(s: Stage) {
    Shape(s) && forall t :: Credit(s, t)
  }

  /// A reaction of an endpoint that stays in credit keeps the books, given what it took out of its mail.
  lemma {:induction false} ReactCredit(s: Stage, t: Tag, r: Reaction, u: Tag)
    requires t in s.ends && t in s.asked
    requires s.p.dispatcher.Has(t) && t in s.used && t !in s.calling
    requires InCredit(r.e)
    requires r.e.pending == AsksInFlight(s.asks, t) + (if r.ask.Some? then r.ask.value else 0)
      + s.p.dispatcher.Owed(t) + EventsInFlight(s, t)
    requires u != t ==> Credit(s, u)
    ensures Credit(React(s, t, r), u)
  {
    if r.ask.Some? {
      AsksConcat(s.asks, [Ask(t, r.ask.value)], u);
      assert AsksInFlight([Ask(t, r.ask.value)][1..], u) == 0;
    }
  }

  /// An asking subscription never has more under way and owed than it has pending.
  lemma {:induction false} UnderWay(s: Stage, t: Tag)
    requires Shape(s) && Credit(s, t)
    ensures AsksInFlight(s.asks, t) >= 0 && s.p.dispatcher.Owed(t) >= 0
    ensures t in s.ends ==> EventsInFlight(s, t) <= s.ends[t].pending
    ensures t !in s.asked ==> AsksInFlight(s.asks, t) == 0
  {
    AsksNonNegative(s.asks, t);
    OwedNonNegative(s.p.dispatcher, t);
    if t !in s.asked { NoAsks(s.asks, t); }
  }

  lemma {:induction false} AcceptCredit(s: Stage, t: Tag, partition: Option<int>, u: Tag)
    requires Shape(s) && Credit(s, t) && Credit(s, u) && Enabled(s, Accept(t, partition))
    ensures Credit(Next(s, Accept(t, partition)), u)
  {
    if HandleSubscribe(s.p, t, partition).Some? { SubscribeOwes(s.p.dispatcher, t, partition, u); }
  }

  lemma {:induction false} TimerCredit(s: Stage, t: Tag, u: Tag)
    requires Shape(s) && Credit(s, t) && Credit(s, u) && Enabled(s, TimerFires(t))
    ensures Credit(Next(s, TimerFires(t)), u)
  {
    if t in s.ends {
      UnderWay(s, t);
      var s' := s.(deferred := s.deferred - {t}, asked := s.asked + {t});
      ReactCredit(s', t, FirstAsk(s.ends[t]), u);
      assert Next(s, TimerFires(t)) == React(s', t, FirstAsk(s.ends[t]));
    }
  }

  lemma {:induction false} AskArrivesCredit(s: Stage, i: nat, reply: seq<Event>, u: Tag)
    requires Shape(s) && Credit(s, u) && Enabled(s, AskArrives(i, reply))
    ensures Credit(Next(s, AskArrives(i, reply)), u)
  {
    var a := s.asks[i];
    assert a in s.asks;
    AskRemoved(s.asks, i, u);
    HandleAskOwes(s.p, a.tag, a.n, reply, u);
    var batches := HandleAsk(s.p, a.tag, a.n, reply).batches;
    PostJoins(s.mail, batches, u);
    if u !in s.asked {
      HandleAskAddresses(s.p, a.tag, a.n, reply, u);
      PostLeaves(s.mail, batches, u);
    }
    hide Dispatcher.Valid, Dispatcher.Owed, Dispatcher.Has, Delivered, Join, Post, HandleAsk, InCredit;
  }

  lemma {:induction false} EventsArriveCredit(s: Stage, t: Tag, failed: nat, u: Tag)
    requires Shape(s) && Credit(s, t) && Credit(s, u) && Enabled(s, EventsArrive(t, failed))
    ensures Credit(Next(s, EventsArrive(t, failed)), u)
  {
    var k := |Mail(s, t)[0]|;
    var s' := s.(mail := s.mail[t := Mail(s, t)[1..]]);
    if t in s.ends {
      UnderWay(s, t);
      ReactionsInCredit(s.ends[t], k, failed);
      assert EventsInFlight(s', t) == EventsInFlight(s, t) - k;
      var r := if s.ends[t].supervises then OnSupervisedEvents(s.ends[t], k, failed) else OnEvents(s.ends[t], k);
      ReactCredit(s', t, r, u);
    }
  }

  lemma ForwardOwes(p: Producer, reply: seq<Event>, u: Tag)
    requires p.dispatcher.Valid()
    ensures var r := SwitchToForward(p, reply);
      && r.p.dispatcher.Valid() && (r.p.dispatcher.Has(u) <==> p.dispatcher.Has(u))
      && r.p.dispatcher.Owed(u) + |Delivered(r.batches, u)| == p.dispatcher.Owed(u)
      && forall x :: x in r.batches ==> p.dispatcher.Owed(x.tag) > 0
  {
    var q := p.(accumulate := false, accumulated := if p.accumulated > 0 then 0 else p.accumulated);
    DispatchOrBufferOwes(q, reply, u);
    hide Dispatcher.Valid, Dispatcher.Owed, Dispatcher.Has, DispatchOrBuffer;
  }

  lemma {:induction false} ForwardCredit(s: Stage, reply: seq<Event>, u: Tag)
    requires Shape(s) && Credit(s, u) && Enabled(s, Forward(reply))
    ensures Credit(Next(s, Forward(reply)), u)
  {
    hide Dispatcher.Valid, Dispatcher.Owed, Dispatcher.Has, Join, Post, SwitchToForward, InCredit, Delivered;
    ForwardOwes(s.p, reply, u);
    var batches := SwitchToForward(s.p, reply).batches;
    PostJoins(s.mail, batches, u);
    if u !in s.asked { PostLeaves(s.mail, batches, u); }
  }

  lemma {:induction false} StepCredit(s: Stage, step: Step, u: Tag)
    requires Conserved(s) && Enabled(s, step)
    ensures Credit(Next(s, step), u)
  {
    assert Credit(s, u);
    hide Dispatcher.Valid, Dispatcher.Owed, Dispatcher.Has, Join, Post, InCredit, HandleAsk, SwitchToForward;
    match step
    case Subscribe(t, _, _, _) => UnderWay(s, t);
    case Accept(t, partition) => assert Credit(s, t); AcceptCredit(s, t, partition, u);
    case TimerFires(t) => assert Credit(s, t); TimerCredit(s, t, u);
    case AskArrives(i, reply) => AskArrivesCredit(s, i, reply, u);
    case EventsArrive(t, failed) => assert Credit(s, t); EventsArriveCredit(s, t, failed, u);
    case WorkerDown(t) =>
      assert Credit(s, t);
      ReactionsInCredit(s.ends[t], 0, 0);
      ReactCredit(s, t, OnWorkerDown(s.ends[t]), u);
    case Unsubscribe(_) =>
    case CancelArrives(t) => CancelOwes(s.p.dispatcher, t, u);
    case Forward(reply) => ForwardCredit(s, reply, u);
  }

  lemma {:induction false} StepShape(s: Stage, step: Step)
    requires Conserved(s) && Enabled(s, step)
    ensures Shape(Next(s, step))
  {
    if step.AskArrives? || step.Accept? || step.CancelArrives? || step.Forward? {
      ProducerStepShape(s, step);
    } else {
      ConsumerStepShape(s, step);
    }
  }

  lemma ProducerStepShape(s: Stage, step: Step)
    requires Conserved(s) && Enabled(s, step) && (step.AskArrives? || step.Accept? || step.CancelArrives? || step.Forward?)
    ensures Shape(Next(s, step))
  {
    hide Dispatcher.Valid, Dispatcher.Owed, Dispatcher.Has, Delivered, HandleAsk, Post, DispatchOrBuffer, AsksInFlight;
    match step
    case Accept(t, partition) =>
      assert Credit(s, t);
      if HandleSubscribe(s.p, t, partition).Some? { SubscribeOwes(s.p.dispatcher, t, partition, t); }
    case AskArrives(i, reply) =>
      assert s.asks[i] in s.asks;
      HandleAskOwes(s.p, s.asks[i].tag, s.asks[i].n, reply, 0);
    case CancelArrives(t) => CancelOwes(s.p.dispatcher, t, 0);
    case Forward(reply) =>
      ForwardOwes(s.p, reply, 0);
  }

  lemma ConsumerStepShape(s: Stage, step: Step)
    requires Conserved(s) && Enabled(s, step) && !(step.AskArrives? || step.Accept? || step.CancelArrives? || step.Forward?)
    ensures Shape(Next(s, step))
  {
    hide Dispatcher.Valid, Dispatcher.Owed, Dispatcher.Has, Join, AsksInFlight;
    match step
    case Subscribe(_, _, _, _) =>
    case TimerFires(t) => assert Credit(s, t);
    case EventsArrive(t, failed) =>
      assert Credit(s, t);
      if t in s.ends {
        UnderWay(s, t);
        FirstIsPartOfJoin(Mail(s, t));
        ReactionsInCredit(s.ends[t], |Mail(s, t)[0]|, failed);
      }
    case WorkerDown(t) =>
      assert Credit(s, t);
      ReactionsInCredit(s.ends[t], 0, 0);
    case Unsubscribe(_) =>
  }

  lemma FirstIsPartOfJoin(box: seq<seq<Event>>)
    requires box != []
    ensures |box[0]| <= |Join(box)|
  {
  }

  /// A producer nobody has subscribed to yet, and nothing under way.
  ghost predicate Initial(s: Stage) {
    && s.p.dispatcher.Valid() && (forall t :: !s.p.dispatcher.Has(t)) && s.p.buffer == []
    && s == Stage(s.p, map[], [], map[], {}, {}, {}, {}, {})
  }

  /// `s'` is reached from `s` by enabled steps.
  ghost predicate Reaches(s: Stage, steps: seq<Step>, s': Stage)
    decreases |steps|
  {
    if steps == [] then s == s'
    else Enabled(s, steps[0]) && Reaches(Next(s, steps[0]), steps[1..], s')
  }

  lemma {:induction false} StepConserves(s: Stage, step: Step)
    requires Conserved(s) && Enabled(s, step)
    ensures Conserved(Next(s, step))
  {
    StepShape(s, step);
    forall u ensures Credit(Next(s, step), u) {
      StepCredit(s, step, u);
    }
  }

  lemma {:induction false} ReachesConserved(s: Stage, steps: seq<Step>, s': Stage)
    requires Conserved(s) && Reaches(s, steps, s')
    ensures Conserved(s')
    decreases |steps|
  {
    if steps != [] {
      StepConserves(s, steps[0]);
      ReachesConserved(Next(s, steps[0]), steps[1..], s');
    }
  }

  /// Credit conservation over every run, for all three dispatchers and for plain and supervising
  /// consumers: pending demand is asks under way plus demand the producer owes plus events under way, and
  /// lies between 0 and the maximum; so the clamp at zero never fires when a batch arrives.
  lemma {:induction false} CreditIsConserved(s: Stage, steps: seq<Step>, s': Stage, t: Tag)
    requires Initial(s) && Reaches(s, steps, s') && t in s'.ends
    ensures s'.ends[t].pending == AsksInFlight(s'.asks, t) + s'.p.dispatcher.Owed(t) + EventsInFlight(s', t)
    ensures 0 <= s'.ends[t].pending <= s'.ends[t].maxDemand
    ensures EventsInFlight(s', t) <= s'.ends[t].maxDemand
    ensures Mail(s', t) != [] ==> Received(s'.ends[t], |Mail(s', t)[0]|).pending == s'.ends[t].pending - |Mail(s', t)[0]|
  {
    forall u ensures Credit(s, u) {
      OwedNonNegative(s.p.dispatcher, u);
    }
    ReachesConserved(s, steps, s');
    assert Credit(s', t);
    UnderWay(s', t);
  }

  /// Worker slots over every run: once a supervising subscription has asked, pending demand, live workers
  /// and released slots always add up to its maximum; and without live workers it still awaits events.
  lemma {:induction false} WorkerSlotsAreConserved(s: Stage, steps: seq<Step>, s': Stage, t: Tag)
    requires Initial(s) && Reaches(s, steps, s') && t in s'.ends && t in s'.asked && s'.ends[t].supervises
    ensures var e := s'.ends[t];
      && e.pending + e.active + e.released == e.maxDemand && 0 <= e.active <= e.maxDemand
      && (0 <= e.minDemand <= e.maxDemand && e.maxDemand > 0 && e.active == 0 ==> e.pending > 0)
  {
    forall u ensures Credit(s, u) {
      OwedNonNegative(s.p.dispatcher, u);
    }
    ReachesConserved(s, steps, s');
    assert Credit(s', t);
  }

  // ---------------------------------------------------------------------------------------------
  // No stuck events

  ghost predicate Lively(s: Stage) {
    && Conserved(s) && NothingStuck(s.p)
    && s.ends.Keys <= s.calling + s.deferred + s.asked
  }

  lemma {:induction false} StepLively(s: Stage, step: Step)
    requires Lively(s) && Enabled(s, step)
    ensures Lively(Next(s, step))
  {
    StepConserves(s, step);
    match step
    case Accept(t, partition) => assert Credit(s, t); SubscribeUnsticks(s.p, t, partition);
    case AskArrives(i, reply) => HandleAskUnsticks(s.p, s.asks[i].tag, s.asks[i].n, reply);
    case CancelArrives(t) => CancelUnsticks(s.p, t);
    case Forward(reply) => SwitchUnsticks(s.p, reply);
    case _ =>
  }

  lemma {:induction false} ReachesLively(s: Stage, steps: seq<Step>, s': Stage)
    requires Lively(s) && Reaches(s, steps, s')
    ensures Lively(s')
    decreases |steps|
  {
    if steps != [] {
      StepLively(s, steps[0]);
      ReachesLively(Next(s, steps[0]), steps[1..], s');
    }
  }

  /// Nothing is under way and every first ask has been made.
  ghost predicate Quiet(s: Stage) {
    s.asks == [] && s.calling == {} && s.deferred == {} && s.cancels == {} && forall t :: Mail(s, t) == []
  }

  /// No stuck events: with the demand dispatcher, whenever everything has come to rest and some plain
  /// consumer with 0 <= minDemand < maxDemand is subscribed, that consumer's demand with the producer is
  /// above its minimum and the producer's buffer is empty.
  lemma {:induction false} NoStuckEvents(s: Stage, steps: seq<Step>, s': Stage, t: Tag)
    requires Initial(s) && s.p.dispatcher.OnDemand? && Reaches(s, steps, s') && Quiet(s')
    requires t in s'.ends && !s'.ends[t].supervises && 0 <= s'.ends[t].minDemand < s'.ends[t].maxDemand
    ensures s'.p.dispatcher.OnDemand? && s'.p.dispatcher.Owed(t) == s'.ends[t].pending > s'.ends[t].minDemand
    ensures s'.p.buffer == []
  {
    forall u ensures Credit(s, u) {
      OwedNonNegative(s.p.dispatcher, u);
    }
    ReachesLively(s, steps, s');
    assert Credit(s', t);
    assert Mail(s', t) == [];
    var subs := s'.p.dispatcher.subs;
    SumZero(subs.order, subs);
  }
}
