/// When one local actor's mailbox is processed: the flags `mailboxScheduled`, `pausedMailboxes` and
/// `processingActors`, the queued immediates, and the handlers under way.

module Scheduler {
  type Message(==, !new)

  const BATCH_SIZE: nat := 64

  /// `runs` holds, for each `processMailbox` that is waiting for a handler, how many messages it has finished.
  /// `accepted` and `handled` are the messages taken in and those whose handler has begun, in order.
  datatype State = State(
    alive: bool,
    mailbox: seq<Message>,
    scheduled: bool,
    paused: bool,
    processing: bool,
    immediates: nat,
    runs: seq<nat>,
    calls: nat,
    accepted: seq<Message>,
    handled: seq<Message>)

  /// One uninterrupted piece of the event loop's work. `kept` is whether a bounded mailbox had room.
  datatype Op =
    | Cast(m: Message, kept: bool)
    | Call(m: Message, kept: bool)
    | Fire
    | HandlerDone(run: nat)
    | HandlerThrew(run: nat)
    | CallDone
    | Pause
    | Resume
    | Drain
    | Prepend(ms: seq<Message>)
    | Stop

  function Schedule(s: State): State {
    if s.scheduled || s.paused || !s.alive then s else s.(scheduled := true, immediates := s.immediates + 1)
  }

  predicate Ready(s: State) { s.alive && !s.paused && s.mailbox != [] }

  /// A call may run at once instead of being queued.
  predicate FastPath(s: State) { s.alive && !s.processing && !s.paused && s.mailbox == [] }

  function Accept(s: State, m: Message): State { s.(mailbox := s.mailbox + [m], accepted := s.accepted + [m]) }

  function Begin(s: State): State
    requires s.mailbox != []
  {
    s.(mailbox := s.mailbox[1..], handled := s.handled + [s.mailbox[0]])
  }

  /// A holder of the mailbox lets go: it arranges to be continued, or gives the `scheduled` flag back.
  function LetGo(s: State): State {
    var t := s.(processing := false);
    if Ready(t) then t.(immediates := t.immediates + 1) else t.(scheduled := false)
  }

  function RemoveRun(s: State, i: nat): State
    requires i < |s.runs|
  {
    s.(runs := s.runs[..i] + s.runs[i + 1..])
  }

  function DoCall(s: State, m: Message, kept: bool): State {
    if FastPath(s) then
      s.(processing := true, scheduled := true, calls := s.calls + 1, accepted := s.accepted + [m], handled := s.handled + [m])
    else if kept then Schedule(Accept(s, m))
    else s
  }

  function DoFire(s: State): State
    requires s.immediates > 0
  {
    var t := s.(immediates := s.immediates - 1);
    if Ready(t) then Begin(t).(processing := true, runs := t.runs + [0]) else t.(scheduled := false)
  }

  function DoHandlerDone(s: State, i: nat): State
    requires i < |s.runs|
  {
    if s.runs[i] + 1 < BATCH_SIZE && Ready(s) then Begin(s).(runs := s.runs[i := s.runs[i] + 1]) else LetGo(RemoveRun(s, i))
  }

  function Step(s: State, op: Op): State {
    match op
    case Cast(m, kept) => if !s.alive then s else Schedule(if kept then Accept(s, m) else s)
    case Call(m, kept) => if !s.alive then s else DoCall(s, m, kept)
    case Fire => if s.immediates == 0 then s else DoFire(s)
    case HandlerDone(i) => if i < |s.runs| then DoHandlerDone(s, i) else s
    case HandlerThrew(i) => if i < |s.runs| then LetGo(RemoveRun(s, i)) else s
    case CallDone => if s.calls == 0 then s else LetGo(s.(calls := s.calls - 1))
    case Pause => if s.alive then s.(paused := true) else s
    case Resume => if s.alive && s.paused then Schedule(s.(paused := false)) else s
    case Drain => if s.alive then s.(paused := true, mailbox := []) else s
    case Prepend(ms) => if s.alive then Schedule(s.(mailbox := ms + s.mailbox)) else s
    case Stop => s.(alive := false, scheduled := false)
  }

  function Run(s: State, ops: seq<Op>): State
    decreases |ops|
  {
    if ops == [] then s else Run(Step(s, ops[0]), ops[1..])
  }

  /// A local actor just spawned: one immediate is already queued.
  function Spawned(): State { Schedule(State(true, [], false, false, false, 0, [], 0, [], [])) }

  /// Whoever will look at the mailbox again: a queued immediate, a handler under way, or a direct call under way.
  function Tokens(s: State): nat { s.immediates + |s.runs| + s.calls }

  function Handlers(s: State): nat { |s.runs| + s.calls }

  // ---------------------------------------------------------------------------------------------
  // No lost wakeup

  predicate Awake(s: State) { (s.scheduled ==> Tokens(s) > 0) && (Ready(s) ==> s.scheduled) }

  lemma StepAwake(s: State, op: Op)
    requires Awake(s)
    ensures Awake(Step(s, op))
  {
    match op
    case HandlerDone(i) => if i < |s.runs| { assert |RemoveRun(s, i).runs| == |s.runs| - 1; }
    case HandlerThrew(i) => if i < |s.runs| { assert |RemoveRun(s, i).runs| == |s.runs| - 1; }
    case _ =>
  }

  /// After any steps, a live actor that is not paused and has mail is going to look at it.
  lemma {:induction false} NoLostWakeup(s: State, ops: seq<Op>)
    requires Awake(s)
    ensures Awake(Run(s, ops))
    ensures Ready(Run(s, ops)) ==> Tokens(Run(s, ops)) > 0
    decreases |ops|
  {
    if ops != [] {
      StepAwake(s, ops[0]);
      NoLostWakeup(Step(s, ops[0]), ops[1..]);
    }
  }

  // ---------------------------------------------------------------------------------------------
  // Order

  predicate Queued(op: Op) { !op.Drain? && !op.Prepend? }

  predicate InOrder(s: State) { s.handled + s.mailbox == s.accepted }

  lemma BeginInOrder(s: State)
    requires InOrder(s) && s.mailbox != []
    ensures InOrder(Begin(s))
  {
    assert s.handled + s.mailbox == (s.handled + [s.mailbox[0]]) + s.mailbox[1..];
  }

  lemma AcceptInOrder(s: State, m: Message)
    requires InOrder(s)
    ensures InOrder(Accept(s, m)) && (s.mailbox == [] ==> s.handled + [m] == s.accepted + [m])
  {
    assert s.handled + (s.mailbox + [m]) == (s.handled + s.mailbox) + [m];
  }

  lemma StepInOrder(s: State, op: Op)
    requires InOrder(s) && Queued(op)
    ensures InOrder(Step(s, op))
  {
    match op
    case Cast(m, _) => AcceptInOrder(s, m);
    case Call(m, _) => AcceptInOrder(s, m);
    case Fire => if s.immediates > 0 && Ready(s) { BeginInOrder(s.(immediates := s.immediates - 1)); }
    case HandlerDone(_) => if Ready(s) { BeginInOrder(s); }
    case _ =>
  }

  /// Unless mail is drained or put back in front, handlers begin in the order in which messages were accepted,
  /// each message once, and those not begun are still queued.
  lemma {:induction false} HandledInOrder(s: State, ops: seq<Op>)
    requires InOrder(s) && forall op :: op in ops ==> Queued(op)
    ensures InOrder(Run(s, ops))
    decreases |ops|
  {
    if ops != [] {
      StepInOrder(s, ops[0]);
      HandledInOrder(Step(s, ops[0]), ops[1..]);
    }
  }

  // ---------------------------------------------------------------------------------------------
  // Pausing

  /// A live actor that is paused, or whose mailbox is drained, begins no handler until it is resumed.
  lemma {:induction false} NothingBeginsWhilePaused(s: State, pause: Op, ops: seq<Op>)
    requires s.alive && (pause.Pause? || pause.Drain?) && forall op :: op in ops ==> !op.Resume?
    ensures Run(Step(s, pause), ops).handled == s.handled
  {
    StaysPaused(Step(s, pause), ops);
  }

  lemma {:induction false} StaysPaused(s: State, ops: seq<Op>)
    requires s.paused && forall op :: op in ops ==> !op.Resume?
    ensures Run(s, ops).paused && Run(s, ops).handled == s.handled
    decreases |ops|
  {
    if ops != [] { StaysPaused(Step(s, ops[0]), ops[1..]); }
  }

  // ---------------------------------------------------------------------------------------------
  // One handler at a time

  /// At most one token, which a live actor has exactly when it is scheduled.
  predicate Single(s: State) {
    && Tokens(s) <= 1
    && (s.alive ==> (s.scheduled <==> Tokens(s) == 1) && (s.processing <==> Handlers(s) == 1))
  }

  /// Nothing to do and nothing being done.
  predicate Idle(s: State) { s.alive && !s.paused && s.mailbox == [] && Handlers(s) == 0 }

  /// No call arrives at an idle actor whose mailbox is scheduled.
  predicate Clear(s: State, op: Op) { op.Call? && Idle(s) ==> !s.scheduled }

  /// A call's handler begins at once exactly when the actor is idle. Otherwise no handler begins: an actor that is paused,
  /// has mail, or has a handler under way queues the call last, if there is room for it.
  lemma CallRunsAtOnceIff(s: State, m: Message, kept: bool)
    requires Single(s)
    ensures var t := Step(s, Call(m, kept));
      && Handlers(t) == Handlers(s) + (if Idle(s) then 1 else 0)
      && t.handled == (if Idle(s) then s.handled + [m] else s.handled)
      && t.mailbox == (if s.alive && !Idle(s) && kept then s.mailbox + [m] else s.mailbox)
  {
  }

  predicate AllClear(s: State, ops: seq<Op>)
    decreases |ops|
  {
    ops == [] || (Clear(s, ops[0]) && AllClear(Step(s, ops[0]), ops[1..]))
  }

  lemma StepSingle(s: State, op: Op)
    requires Single(s) && Clear(s, op)
    ensures Single(Step(s, op))
  {
    match op
    case HandlerDone(i) => if i < |s.runs| { assert |RemoveRun(s, i).runs| == |s.runs| - 1; }
    case HandlerThrew(i) => if i < |s.runs| { assert |RemoveRun(s, i).runs| == |s.runs| - 1; }
    case _ =>
  }

  /// At most one handler is ever under way, unless a call arrives at an idle actor whose mailbox is scheduled.
  lemma {:induction false} OneHandler(s: State, ops: seq<Op>)
    requires Single(s) && AllClear(s, ops)
    ensures Single(Run(s, ops)) && Handlers(Run(s, ops)) <= 1
    decreases |ops|
  {
    if ops != [] {
      StepSingle(s, ops[0]);
      OneHandler(Step(s, ops[0]), ops[1..]);
    }
  }

  /// After any such run, a call that finds a handler under way, mail, or a pause is queued last and begins no handler.
  lemma {:induction false} CallWaitsItsTurn(s: State, ops: seq<Op>, m: Message, kept: bool)
    requires Single(s) && AllClear(s, ops)
    ensures var u := Run(s, ops);
      var t := Step(u, Call(m, kept));
      && Handlers(t) == Handlers(u) + (if Idle(u) then 1 else 0)
      && t.handled == (if Idle(u) then u.handled + [m] else u.handled)
      && t.mailbox == (if u.alive && !Idle(u) && kept then u.mailbox + [m] else u.mailbox)
  {
    OneHandler(s, ops);
    CallRunsAtOnceIff(Run(s, ops), m, kept);
  }

  /// Letting a call through at once is safe, for everything that can follow, exactly when the mailbox is not scheduled.
  lemma {:induction false} FastPathIsSafeIff(s: State, m: Message, kept: bool)
    requires Single(s) && Idle(s)
    ensures !s.scheduled <==>
            forall ops :: AllClear(Step(s, Call(m, kept)), ops) ==> Handlers(Run(Step(s, Call(m, kept)), ops)) <= 1
  {
    var t := Step(s, Call(m, kept));
    if !s.scheduled {
      StepSingle(s, Call(m, kept));
      forall ops | AllClear(t, ops) ensures Handlers(Run(t, ops)) <= 1 {
        OneHandler(t, ops);
      }
    } else {
      var ops := [Cast(m, true), Fire];
      var u := Step(t, Cast(m, true));
      assert ops[1..] == [Fire] && [Fire][1..] == [];
      assert AllClear(u, [Fire]);
      assert AllClear(t, ops);
      assert Run(t, ops) == Run(u, [Fire]) == Step(u, Fire);
      assert Handlers(Run(t, ops)) == 2;
    }
  }

  /// The spawn leaves the mailbox scheduled, so a call that arrives before its immediate fires is the unsafe kind.
  lemma FirstCallAfterSpawnOverlaps(m: Message)
    ensures Awake(Spawned()) && InOrder(Spawned()) && Single(Spawned()) && Idle(Spawned())
    ensures Handlers(Run(Spawned(), [Call(m, true), Cast(m, true), Fire])) == 2
  {
    var s := Spawned();
    var t := Step(s, Call(m, true));
    var u := Step(t, Cast(m, true));
    var ops := [Call(m, true), Cast(m, true), Fire];
    assert ops[1..] == [Cast(m, true), Fire] && ops[1..][1..] == [Fire] && [Fire][1..] == [];
    assert Run(s, ops) == Run(t, ops[1..]) == Run(u, [Fire]) == Step(u, Fire);
  }
}
