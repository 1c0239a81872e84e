/// The source side of an actor migration: calls waiting in the mailbox are rejected, the mailbox is drained for the
/// target, and everything is put back when the migration fails.

module Migration {
  import opened Basics
  import opened Mailbox
  import opened RingSizes
  import opened Subsequences

  /// How a migration ends once the mailbox has been paused.
  datatype Fate = PrepareFails | NotReady | StateFails | ExecuteFails | ExecuteRefused | Succeeds

  predicate Rejectable(m: Message) { m.kind == Call && m.rejectable }

  function Kept(q: seq<Message>): seq<Message> {
    if q == [] then []
    else if Rejectable(q[|q| - 1]) then Kept(q[..|q| - 1])
    else Kept(q[..|q| - 1]) + [q[|q| - 1]]
  }

  function Rejected(q: seq<Message>): seq<Message> {
    if q == [] then []
    else if Rejectable(q[|q| - 1]) then Rejected(q[..|q| - 1]) + [q[|q| - 1]]
    else Rejected(q[..|q| - 1])
  }

  /// Nothing is lost or made up by rejecting: each waiting message is kept or rejected, once.
  lemma {:induction false} KeptOrRejected(q: seq<Message>)
    ensures multiset(q) == multiset(Kept(q)) + multiset(Rejected(q))
    ensures forall m :: m in Kept(q) ==> !Rejectable(m)
    ensures forall m :: m in Rejected(q) ==> Rejectable(m)
  {
    if q != [] {
      assert q == q[..|q| - 1] + [q[|q| - 1]];
      KeptOrRejected(q[..|q| - 1]);
    }
  }

  /// Rejecting goes message by message, in the order of the queue: what is kept of two stretches is what is kept of the
  /// first, then what is kept of the second, and so for what is rejected.
  lemma {:induction false} KeptInOrder(a: seq<Message>, b: seq<Message>)
    ensures Kept(a + b) == Kept(a) + Kept(b) && Rejected(a + b) == Rejected(a) + Rejected(b)
  {
    if b == [] {
      assert a + b == a;
    } else {
      var n := |b| - 1;
      assert (a + b)[..|a + b| - 1] == a + b[..n];
      KeptInOrder(a, b[..n]);
    }
  }

  lemma KeptOne(m: Message)
    ensures Kept([m]) == if m.kind == Call && m.rejectable then [] else [m]
    ensures Rejected([m]) == if m.kind == Call && m.rejectable then [m] else []
  {
    assert [m][..0] == [];
  }

  /// The kept messages, and the rejected ones, stand in the order in which they waited.
  lemma {:induction false} KeptIsSubsequence(q: seq<Message>)
    ensures Subsequence(Kept(q), q) && Subsequence(Rejected(q), q)
  {
    if q != [] {
      var n := |q| - 1;
      KeptIsSubsequence(q[..n]);
      assert q == q[..n] + [q[n]];
      Append(Kept(q[..n]), q[..n], [q[n]]);
      Append(Rejected(q[..n]), q[..n], [q[n]]);
      Extend(Kept(q[..n]), q[..n], [q[n]]);
      Extend(Rejected(q[..n]), q[..n], [q[n]]);
    }
  }

  class MigrationSource {
    const mailbox: BoundedMailbox
    var present: bool
    var paused: bool
    var rejected: seq<Message>

    constructor (mailbox: BoundedMailbox)
      ensures this.mailbox == mailbox && present && !paused && rejected == []
    {
      this.mailbox, present, paused, rejected := mailbox, true, false, [];
    }

    /// An unbounded mailbox whose queue can be read; at worst its ring is full with the write index unwrapped.
    ghost predicate Usable()
      reads mailbox, mailbox.buf
    {
      && mailbox.maxSize == None && mailbox.Readable() && mailbox.Accounted()
      && (mailbox.Valid() || mailbox.size == mailbox.buf.Length)
    }

    ghost function Queue(): seq<Message>
      reads mailbox, mailbox.buf
      requires Usable()
    {
      mailbox.Contents()
    }

    twostate predicate SameRing()
      reads mailbox
    {
      mailbox.buf == old(mailbox.buf) || fresh(mailbox.buf)
    }

    /// Messages that come in while the mailbox is paused are queued, calls too.
    method Arrive(ms: seq<Message>)
      requires Usable()
      modifies mailbox, mailbox.buf
      ensures Usable() && SameRing() && Queue() == old(Queue()) + ms
      ensures mailbox.Valid() <==> ms != [] || old(mailbox.Valid())
      ensures ms == [] ==> mailbox.buf == old(mailbox.buf)
    {
      for i := 0 to |ms|
        invariant Usable() && SameRing() && Queue() == old(Queue()) + ms[..i]
        invariant mailbox.Valid() <==> i > 0 || old(mailbox.Valid())
        invariant i == 0 ==> mailbox.buf == old(mailbox.buf)
      {
        var _, _ := mailbox.Enqueue(ms[i]);
        assert ms[..i + 1] == ms[..i] + [ms[i]];
      }
      assert ms[..|ms|] == ms;
    }

    method RejectPendingCalls() returns (count: nat)
      requires Usable()
      modifies this`rejected, mailbox, mailbox.buf
      ensures Usable() && SameRing() && Queue() == Kept(old(Queue()))
      ensures rejected == old(rejected) + Rejected(old(Queue())) && count == |Rejected(old(Queue()))|
      ensures mailbox.buf.Length == Max(old(mailbox.buf.Length), Max(16, NextPow2(|Kept(old(Queue()))|)))
      ensures mailbox.Valid() <==> |Kept(old(Queue()))| < mailbox.buf.Length
    {
      var waiting := mailbox.ToArray();
      var remaining := [];
      count := 0;
      for i := 0 to |waiting|
        modifies this`rejected
        invariant remaining == Kept(waiting[..i]) && rejected == old(rejected) + Rejected(waiting[..i])
        invariant count == |Rejected(waiting[..i])|
      {
        assert waiting[..i + 1][..i] == waiting[..i];
        if waiting[i].kind == Call && waiting[i].rejectable {
          rejected := rejected + [waiting[i]];
          count := count + 1;
        } else {
          remaining := remaining + [waiting[i]];
        }
      }
      assert waiting[..|waiting|] == waiting;
      mailbox.ReplaceWith(remaining);
    }

    method Drain() returns (pending: seq<Message>)
      requires Usable()
      modifies this`paused, mailbox, mailbox.buf
      ensures Usable() && SameRing() && mailbox.Valid() && Queue() == [] && pending == old(Queue()) && paused
    {
      paused := true;
      pending := mailbox.Drain();
    }

    method Inject(ms: seq<Message>)
      requires Usable() && mailbox.Valid()
      modifies mailbox, mailbox.buf
      ensures Usable() && SameRing() && mailbox.Valid() && Queue() == ms + old(Queue())
    {
      mailbox.Unshift(ms);
    }

    method PutBack(pending: seq<Message>)
      requires Usable() && mailbox.Valid()
      modifies this`paused, mailbox, mailbox.buf
      ensures Usable() && SameRing() && mailbox.Valid() && Queue() == pending + old(Queue()) && !paused
    {
      Inject(pending);
      paused := false;
    }

    /// Pausing, rejecting, and asking the target; `a1` comes in while it answers.
    method Prepare(a1: seq<Message>)
      requires Usable()
      modifies this`paused, this`rejected, mailbox, mailbox.buf
      ensures Usable() && SameRing() && paused && rejected == old(rejected) + Rejected(old(Queue()))
      ensures Queue() == Kept(old(Queue())) + a1
      ensures mailbox.Valid() <==> a1 != [] || Fits(old(Queue()), old(mailbox.buf.Length))
    {
      paused := true;
      var _ := RejectPendingCalls();
      Arrive(a1);
    }

    /// Draining, reading the state, and handing over; `a2`, `a3` and `a4` come in during each.
    method HandOver(a2: seq<Message>, a3: seq<Message>, a4: seq<Message>, fate: Fate) returns (success: bool)
      requires Usable() && present && paused
      modifies this`present, this`paused, mailbox, mailbox.buf
      ensures (success <==> fate == Succeeds || fate == PrepareFails || fate == NotReady) && present == !success && !paused
      ensures !success ==> Usable() && mailbox.Valid() && Queue() == old(Queue()) + (if fate.StateFails? then a2 + a3 else a2 + a3 + a4)
    {
      hide Usable, Queue;
      Arrive(a2);
      var pending := Drain();
      Arrive(a3);
      if fate.StateFails? {
        PutBack(pending);
        return false;
      }
      Arrive(a4);
      if fate.ExecuteFails? || fate.ExecuteRefused? {
        PutBack(pending);
        return false;
      }
      present, paused := false, false;
      success := true;
    }

    /// A whole migration. `a1` to `a4` come in while the source waits: for the target to prepare, for the handler under
    /// way, for the state, and for the target to take over. If it fails, wherever it fails, the mailbox is what
    /// was queued without the rejected calls, then all that came in, in order; it is no longer paused; each call
    /// that was waiting has been rejected once. The ring is sound too, except when the target declines at once, nothing
    /// came in, and what was kept fills the ring to its last slot.
    method Migrate(a1: seq<Message>, a2: seq<Message>, a3: seq<Message>, a4: seq<Message>, fate: Fate)
      returns (success: bool)
      requires Usable() && present
      modifies this, mailbox, mailbox.buf
      ensures success <==> fate == Succeeds
      ensures present == !success && paused == false
      ensures rejected == old(rejected) + Rejected(old(Queue()))
      ensures !success ==> Usable() && Queue() == Kept(old(Queue())) + Arrived(a1, a2, a3, a4, fate)
      ensures !success ==>
                (mailbox.Valid() <==>
                  !(fate.PrepareFails? || fate.NotReady?) || a1 != [] || Fits(old(Queue()), old(mailbox.buf.Length)))
    {
      hide Usable, Queue;
      Prepare(a1);
      if fate.PrepareFails? || fate.NotReady? {
        paused := false;
        return false;
      }
      success := HandOver(a2, a3, a4, fate);
    }
  }

  /// What is kept of `q` leaves a slot free in a ring that had this capacity.
  predicate Fits(q: seq<Message>, capacity: nat) { |Kept(q)| < Max(capacity, Max(16, NextPow2(|Kept(q)|))) }

  /// What came in before a migration of this fate ended.
  function Arrived(a1: seq<Message>, a2: seq<Message>, a3: seq<Message>, a4: seq<Message>, fate: Fate): seq<Message> {
    if fate.PrepareFails? || fate.NotReady? then a1
    else if fate.StateFails? then a1 + (a2 + a3)
    else a1 + (a2 + a3 + a4)
  }
}
