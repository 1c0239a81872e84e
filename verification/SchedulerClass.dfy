/// The flags of the scheduler as the actor system keeps them, and the loop that works a mailbox off.

module SchedulerClass {
  import opened Scheduler

  function Dones(n: nat, k: nat): seq<Op> { seq(k, _ => HandlerDone(n)) }

  lemma RunAppend(s: State, ops: seq<Op>, op: Op)
    ensures Run(s, ops + [op]) == Step(Run(s, ops), op)
    decreases |ops|
  {
    if ops == [] {
      assert Run(Step(s, op), []) == Step(s, op);
    } else {
      assert (ops + [op])[1..] == ops[1..] + [op];
      RunAppend(Step(s, ops[0]), ops[1..], op);
    }
  }

  function BatchOf(s: State): nat { if !Ready(s) then 0 else if |s.mailbox| < BATCH_SIZE then |s.mailbox| else BATCH_SIZE }

  /// The state after firing and `j` finished handlers, the next one under way.
  function During(s: State, j: nat): State
    requires s.immediates > 0 && j < |s.mailbox|
  {
    s.(immediates := s.immediates - 1, processing := true, runs := s.runs + [j],
       handled := s.handled + s.mailbox[..j + 1], mailbox := s.mailbox[j + 1..])
  }

  lemma {:induction false} RunDuring(s: State, j: nat)
    requires s.immediates > 0 && j < BatchOf(s)
    ensures Run(s, [Fire] + Dones(|s.runs|, j)) == During(s, j)
  {
    if j == 0 {
      assert [Fire] + Dones(|s.runs|, 0) == [Fire] && [Fire][1..] == [];
      assert s.mailbox[..1] == [s.mailbox[0]];
      assert Run(s, [Fire]) == Step(s, Fire);
    } else {
      RunDuring(s, j - 1);
      var t := During(s, j - 1);
      RunAppend(s, [Fire] + Dones(|s.runs|, j - 1), HandlerDone(|s.runs|));
      assert [Fire] + Dones(|s.runs|, j) == ([Fire] + Dones(|s.runs|, j - 1)) + [HandlerDone(|s.runs|)];
      assert t.mailbox[0] == s.mailbox[j] && t.mailbox[1..] == s.mailbox[j + 1..];
      assert s.mailbox[..j] + [s.mailbox[j]] == s.mailbox[..j + 1];
      assert t.handled + [s.mailbox[j]] == s.handled + s.mailbox[..j + 1];
      assert (s.runs + [j - 1])[|s.runs| := j] == s.runs + [j];
    }
  }

  lemma {:induction false} RunBatch(s: State, k: nat)
    requires s.immediates > 0 && 0 < k == BatchOf(s)
    ensures Run(s, [Fire] + Dones(|s.runs|, k)) == LetGo(During(s, k - 1).(runs := s.runs))
  {
    RunDuring(s, k - 1);
    var t := During(s, k - 1);
    RunAppend(s, [Fire] + Dones(|s.runs|, k - 1), HandlerDone(|s.runs|));
    assert [Fire] + Dones(|s.runs|, k) == ([Fire] + Dones(|s.runs|, k - 1)) + [HandlerDone(|s.runs|)];
    assert t.runs[..|s.runs|] + t.runs[|s.runs| + 1..] == s.runs;
  }

  lemma NothingToDo(s: State)
    requires s.immediates > 0 && !Ready(s)
    ensures Run(s, [Fire] + Dones(|s.runs|, 0)) == s.(immediates := s.immediates - 1, scheduled := false)
  {
    assert [Fire] + Dones(|s.runs|, 0) == [Fire] && [Fire][1..] == [];
    assert Run(s, [Fire]) == Step(s, Fire);
  }

  class MailboxScheduler {
    var alive: bool
    var mailbox: seq<Message>
    var scheduled: bool
    var paused: bool
    var processing: bool
    var immediates: nat
    var runs: seq<nat>
    var calls: nat
    var accepted: seq<Message>
    var handled: seq<Message>

    function Now(): State reads this {
      State(alive, mailbox, scheduled, paused, processing, immediates, runs, calls, accepted, handled)
    }

    constructor ()
      ensures Now() == Spawned()
    {
      alive, mailbox, scheduled, paused, processing, immediates, runs := true, [], false, false, false, 0, [];
      calls, accepted, handled := 0, [], [];
      new;
      ScheduleProcessMailbox();
    }

    method ScheduleProcessMailbox()
      modifies this
      ensures Now() == Schedule(old(Now()))
    {
      if scheduled { return; }
      if paused { return; }
      if !alive { return; }
      scheduled := true;
      immediates := immediates + 1;
    }

    method Enqueue(m: Message)
      modifies this
      ensures Now() == Accept(old(Now()), m)
    {
      mailbox, accepted := mailbox + [m], accepted + [m];
    }

    method DispatchCast(m: Message, kept: bool)
      modifies this
      ensures Now() == Step(old(Now()), Cast(m, kept))
    {
      if !alive { return; }
      if kept { Enqueue(m); }
      ScheduleProcessMailbox();
    }

    method DispatchCall(m: Message, kept: bool)
      modifies this
      ensures Now() == Step(old(Now()), Call(m, kept))
    {
      if !alive { return; }
      if !processing && !paused && |mailbox| == 0 {
        processing, scheduled, calls := true, true, calls + 1;
        accepted, handled := accepted + [m], handled + [m];
      } else if kept {
        Enqueue(m);
        ScheduleProcessMailbox();
      }
    }

    method Release()
      modifies this
      ensures Now() == LetGo(old(Now()))
    {
      processing := false;
      if alive && !paused && |mailbox| > 0 {
        immediates := immediates + 1;
      } else {
        scheduled := false;
      }
    }

    method FinishCall()
      requires calls > 0
      modifies this
      ensures Now() == Step(old(Now()), CallDone)
    {
      calls := calls - 1;
      Release();
    }

    method PauseMailbox() returns (ok: bool)
      modifies this
      ensures Now() == Step(old(Now()), Pause) && ok == old(alive) && (ok ==> paused && mailbox == old(mailbox))
    {
      if !alive { return false; }
      paused := true;
      ok := true;
    }

    method ResumeMailbox() returns (wasPaused: bool)
      modifies this
      ensures Now() == Step(old(Now()), Resume) && wasPaused == (old(alive) && old(paused)) && (alive ==> !paused)
    {
      if !alive { return false; }
      wasPaused := paused;
      paused := false;
      if wasPaused { ScheduleProcessMailbox(); }
    }

    method InjectMessages(ms: seq<Message>) returns (ok: bool)
      modifies this
      ensures Now() == Step(old(Now()), Prepend(ms)) && ok == old(alive) && (ok ==> mailbox == ms + old(mailbox))
    {
      if !alive { return false; }
      mailbox := ms + mailbox;
      ScheduleProcessMailbox();
      ok := true;
    }

    /// What is taken out is everything that was queued.
    method DrainMailbox() returns (pending: seq<Message>)
      modifies this
      ensures Now() == Step(old(Now()), Drain) && pending == (if old(alive) then old(mailbox) else [])
      ensures alive ==> paused && mailbox == []
    {
      if !alive { return []; }
      paused := true;
      pending, mailbox := mailbox, [];
    }

    /// The loop of one batch, every handler returning at once.
    method WorkOff() returns (processed: nat)
      requires Ready(Now())
      modifies this`handled, this`mailbox
      ensures processed == BatchOf(old(Now()))
      ensures handled == old(handled) + old(mailbox)[..processed] && mailbox == old(mailbox)[processed..]
    {
      processed := 0;
      while processed < BATCH_SIZE && |mailbox| > 0 && alive && !paused
        invariant processed <= BatchOf(old(Now()))
        invariant handled == old(handled) + old(mailbox)[..processed] && mailbox == old(mailbox)[processed..]
      {
        assert old(mailbox)[..processed] + [mailbox[0]] == old(mailbox)[..processed + 1];
        handled, mailbox := handled + [mailbox[0]], mailbox[1..];
        processed := processed + 1;
      }
    }

    /// One firing of `processMailbox` when every handler returns at once: the loop amounts to the firing followed by
    /// one finished handler after another, and works off the first 64 messages, or all if there are fewer.
    method ProcessMailbox()
      requires immediates > 0
      modifies this
      ensures var k := BatchOf(old(Now()));
              && Now() == Run(old(Now()), [Fire] + Dones(old(|runs|), k))
              && handled == old(handled) + old(mailbox)[..k] && mailbox == old(mailbox)[k..] && runs == old(runs)
    {
      ghost var s := Now();
      immediates := immediates - 1;
      if !alive || paused || |mailbox| == 0 {
        scheduled := false;
        NothingToDo(s);
        return;
      }
      hide Run, Dones;
      processing := true;
      var processed := WorkOff();
      RunBatch(s, processed);
      Release();
    }
  }
}
