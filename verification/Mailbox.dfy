/// The ring-buffer mailbox: it behaves as a queue, its ring stays within twice what it had to hold, and
/// the one way in which bulk loading can leave it broken.

module Mailbox {
  import opened Basics
  import opened RingSizes

  datatype Kind = Call | Cast

  /// `rejectable` says that the message carries a reject callback.
  datatype Message = Message(kind: Kind, rejectable: bool, body: nat)

  datatype Overflow = DropNewest | DropOldest | Error

  datatype Answer = Accepted | Refused | Thrown

  /// Slot of the i-th element of a ring of `length` slots starting at `head`.
  function Slot(head: nat, i: nat, length: nat): (s: nat)
    requires head < length && i <= length
    ensures s < length
  {
    if head + i < length then head + i else head + i - length
  }

  lemma {:induction false} SlotIsMod(head: nat, i: nat, length: nat)
    requires head < length && i <= length
    ensures (head + i) % length == Slot(head, i, length)
  {
    if head + i >= length {
      assert head + i == length * 1 + (head + i - length);
      ModUnique(head + i, length, 1, head + i - length);
    } else {
      ModUnique(head + i, length, 0, head + i);
    }
  }

  lemma {:induction false} ModUnique(x: nat, n: nat, q: nat, r: nat)
    requires n > 0 && x == n * q + r && r < n && q <= 1
    ensures x % n == r
  {
    if q == 0 { assert x == r; } else { assert (x - n) % n == x - n; }
  }

  /// `size` slots from `head` on, wrapping round, hold messages.
  ghost predicate Holds(ring: seq<Option<Message>>, head: nat, size: nat) {
    && head < |ring| && size <= |ring|
    && forall i :: 0 <= i < size ==> ring[Slot(head, i, |ring|)].Some?
  }

  /// The messages in those slots, oldest first.
  ghost function Elements(ring: seq<Option<Message>>, head: nat, size: nat): (s: seq<Message>)
    requires Holds(ring, head, size)
    ensures |s| == size && forall i :: 0 <= i < size ==> s[i] == ring[Slot(head, i, |ring|)].value
  {
    seq(size, i requires 0 <= i < size && Holds(ring, head, size) => ring[Slot(head, i, |ring|)].value)
  }

  /// Writing behind the last element appends.
  lemma {:induction false} RingAppends(ring: seq<Option<Message>>, head: nat, size: nat, m: Message)
    requires Holds(ring, head, size) && size < |ring|
    ensures var ring' := ring[Slot(head, size, |ring|) := Some(m)];
      Holds(ring', head, size + 1) && Elements(ring', head, size + 1) == Elements(ring, head, size) + [m]
  {
    var ring' := ring[Slot(head, size, |ring|) := Some(m)];
    assert forall i :: 0 <= i < size ==> ring'[Slot(head, i, |ring|)] == ring[Slot(head, i, |ring|)];
  }

  /// Advancing the head drops the oldest element; its slot may be cleared.
  lemma {:induction false} RingPops(ring: seq<Option<Message>>, head: nat, size: nat)
    requires Holds(ring, head, size) && size > 0
    ensures var ring', head' := ring[head := None], Slot(head, 1, |ring|);
      && Holds(ring', head', size - 1) && Elements(ring', head', size - 1) == Elements(ring, head, size)[1..]
      && ring[head] == Some(Elements(ring, head, size)[0])
      && Slot(head', size - 1, |ring|) == Slot(head, size, |ring|)
  {
    var ring', head' := ring[head := None], Slot(head, 1, |ring|);
    forall i | 0 <= i < size - 1 ensures ring'[Slot(head', i, |ring|)] == ring[Slot(head, i + 1, |ring|)] {
      assert Slot(head', i, |ring|) == Slot(head, i + 1, |ring|);
    }
  }

  lemma ElementsAre(ring: seq<Option<Message>>, head: nat, size: nat, s: seq<Message>)
    requires head < |ring| && size <= |ring| && |s| == size
    requires forall i :: 0 <= i < size ==> ring[Slot(head, i, |ring|)] == Some(s[i])
    ensures Holds(ring, head, size) && Elements(ring, head, size) == s
  {
  }

  /// One step back along the ring.
  lemma SlotBack(head: nat, i: nat, length: nat)
    requires head < length && 0 < i <= length
    ensures Slot(Slot(head, length - 1, length), i, length) == Slot(head, i - 1, length)
  {
  }

  lemma SlotsDiffer(head: nat, i: nat, length: nat)
    requires head < length && i < length - 1
    ensures Slot(head, i, length) != Slot(head, length - 1, length)
  {
  }

  /// Moving the head back and writing there prepends.
  lemma {:induction false} RingPushes(ring: seq<Option<Message>>, head: nat, size: nat, m: Message)
    requires Holds(ring, head, size) && size < |ring|
    ensures var head' := Slot(head, |ring| - 1, |ring|);
      var ring' := ring[head' := Some(m)];
      && Holds(ring', head', size + 1) && Elements(ring', head', size + 1) == [m] + Elements(ring, head, size)
      && Slot(head', size + 1, |ring|) == Slot(head, size, |ring|)
  {
    var head' := Slot(head, |ring| - 1, |ring|);
    var ring' := ring[head' := Some(m)];
    var s := [m] + Elements(ring, head, size);
    forall i | 0 <= i < size + 1 ensures ring'[Slot(head', i, |ring|)] == Some(s[i]) {
      if i > 0 {
        SlotBack(head, i, |ring|);
        SlotsDiffer(head, i - 1, |ring|);
      }
    }
    SlotBack(head, size + 1, |ring|);
    ElementsAre(ring', head', size + 1, s);
  }

  lemma {:induction false} RingLoaded(ring: seq<Option<Message>>, msgs: seq<Message>)
    requires 0 < |ring| && |msgs| <= |ring| && forall j :: 0 <= j < |msgs| ==> ring[j] == Some(msgs[j])
    ensures Holds(ring, 0, |msgs|) && Elements(ring, 0, |msgs|) == msgs
  {
    assert forall j :: 0 <= j < |msgs| ==> Slot(0, j, |ring|) == j;
  }

  lemma {:induction false} Prepended(msgs: seq<Message>, i: nat, rest: seq<Message>)
    requires i < |msgs|
    ensures [msgs[i]] + (msgs[i + 1..] + rest) == msgs[i..] + rest
  {
    assert msgs[i..] == [msgs[i]] + msgs[i + 1..];
  }

  /// What offering a message to a queue does.
  datatype Offer = Offer(queue: seq<Message>, answer: Answer, evicted: Option<Message>, dropped: nat)

  function OfferTo(q: seq<Message>, full: bool, strategy: Overflow, msg: Message): Offer {
    if !full then Offer(q + [msg], Accepted, None, 0)
    else match strategy
      case DropNewest => Offer(q, Refused, None, 1)
      case DropOldest => Offer((q + [msg])[1..], Accepted, if q == [] then None else Some(q[0]), 1)
      case Error => Offer(q, Thrown, None, 1)
  }

  /// Messages offered one after another to a queue that may hold `max`.
  function OfferAll(q: seq<Message>, max: nat, strategy: Overflow, ms: seq<Message>): Offer {
    if ms == [] then Offer(q, Accepted, None, 0)
    else
      var before := OfferAll(q, max, strategy, ms[..|ms| - 1]);
      var last := OfferTo(before.queue, |before.queue| >= max, strategy, ms[|ms| - 1]);
      last.(dropped := before.dropped + last.dropped)
  }

  /// The first messages that fit, or the last ones when the oldest give way.
  function Fitting(all: seq<Message>, max: nat, strategy: Overflow): seq<Message> {
    var over := Max(0, |all| - max);
    if strategy == DropOldest then all[over..] else all[..|all| - over]
  }

  lemma OneOffer(all: seq<Message>, max: nat, strategy: Overflow, m: Message)
    ensures var q := Fitting(all, max, strategy);
      var o := OfferTo(q, |q| >= max, strategy, m);
      && |q| == Min(|all|, max) && o.queue == Fitting(all + [m], max, strategy)
      && o.dropped == (if |all| < max then 0 else 1)
      && o.answer == (if strategy == DropOldest || |all| < max then Accepted
                      else if strategy == DropNewest then Refused else Thrown)
      && o.evicted == (if strategy == DropOldest && |all| >= max > 0 then Some(all[|all| - max]) else None)
  {
    var over := Max(0, |all| - max);
    if strategy == DropOldest {
      if |all| >= max { assert (all[over..] + [m])[1..] == (all + [m])[over + 1..]; }
    } else if |all| >= max {
      assert (all + [m])[..max] == all[..max];
    }
  }

  /// What the strategies mean: dropping the oldest keeps the last messages that fit and takes every message in; dropping
  /// the newest and throwing keep the first that fit and turn away what comes to a full mailbox. One is lost for each that
  /// does not fit.
  lemma {:induction false} StrategiesKeep(q: seq<Message>, max: nat, strategy: Overflow, ms: seq<Message>)
    requires |q| <= max
    ensures var o, all := OfferAll(q, max, strategy, ms), q + ms;
      && o.queue == Fitting(all, max, strategy) && o.dropped == Max(0, |all| - max)
      && (ms != [] ==>
            && o.answer == (if strategy == DropOldest || |all| <= max then Accepted
                            else if strategy == DropNewest then Refused else Thrown)
            && o.evicted == (if strategy == DropOldest && |all| > max > 0 then Some(all[|all| - 1 - max]) else None))
  {
    if ms == [] {
      assert q + ms == q;
    } else {
      var n := |ms| - 1;
      StrategiesKeep(q, max, strategy, ms[..n]);
      OneOffer(q + ms[..n], max, strategy, ms[n]);
      assert q + ms == (q + ms[..n]) + [ms[n]];
      hide Fitting, OfferTo;
    }
  }

  class BoundedMailbox {
    const maxSize: Option<nat>
    const strategy: Overflow
    var buf: array<Option<Message>>
    var head: nat
    var tail: nat
    var size: nat
    var droppedCount: nat

    /// What went in and out, for the ledger; `bulk` records whether the ring was ever bulk-loaded.
    ghost var offered: nat
    ghost var prepended: nat
    ghost var loaded: nat
    ghost var dequeued: nat
    ghost var discarded: nat
    ghost var peak: nat
    ghost var copied: nat
    ghost var bulk: bool

    /// The queue can be read off the ring.
    ghost predicate Readable()
      reads this, buf
    {
      Holds(buf[..], head, size)
    }

    ghost function Contents(): (s: seq<Message>)
      reads this, buf
      requires Readable()
    {
      Elements(buf[..], head, size)
    }

    /// The write index is where the next element belongs.
    ghost predicate Valid()
      reads this, buf
    {
      Readable() && tail == Slot(head, size, buf.Length)
    }

    /// Conservation and space, kept by every operation: whatever came in went out, is queued, was dropped
    /// or was discarded in bulk; the ring has at most twice the slots ever needed at once; and growing has
    /// copied no more elements than it added slots.
    ghost predicate Accounted()
      reads this, buf
    {
      && offered + prepended + loaded == dequeued + size + droppedCount + discarded
      && size <= peak && 16 <= buf.Length <= Max(16, 2 * peak)
      && (!bulk ==> copied + 16 <= buf.Length)
    }

    /// How an operation other than bulk loading moves the ledger.
    twostate predicate Moved(offers: nat, prepends: nat, dequeues: nat, drops: nat, discards: nat) reads this {
      && offered == old(offered) + offers && prepended == old(prepended) + prepends
      && dequeued == old(dequeued) + dequeues && droppedCount == old(droppedCount) + drops
      && discarded == old(discarded) + discards && loaded == old(loaded) && bulk == old(bulk)
      && peak == Max(old(peak), size)
    }

    constructor (maxSize: Option<nat>, strategy: Overflow)
      ensures Valid() && Accounted() && Contents() == [] && fresh(buf) && !bulk
      ensures this.maxSize == maxSize && this.strategy == strategy && droppedCount == 0
      ensures offered == prepended == loaded == dequeued == discarded == peak == 0
    {
      this.maxSize, this.strategy := maxSize, strategy;
      buf := new Option<Message>[16](_ => None);
      head, tail, size, droppedCount := 0, 0, 0, 0;
      offered, prepended, loaded, dequeued, discarded, peak, copied, bulk := 0, 0, 0, 0, 0, 0, 0, false;
    }

    predicate IsFull()
      reads this
    {
      maxSize.Some? && size >= maxSize.value
    }

    method Grow()
      requires Readable() && Accounted() && buf.Length <= peak
      modifies this`buf, this`head, this`tail, this`copied
      ensures Valid() && Accounted() && Contents() == old(Contents())
      ensures fresh(buf) && buf.Length == 2 * old(buf.Length) && copied == old(copied) + size
    {
      var newBuf := new Option<Message>[2 * buf.Length](_ => None);
      for i := 0 to size
        modifies newBuf
        invariant forall j :: 0 <= j < i ==> newBuf[j] == buf[Slot(head, j, buf.Length)]
      {
        SlotIsMod(head, i, buf.Length);
        newBuf[i] := buf[(head + i) % buf.Length];
      }
      buf, head, tail, copied := newBuf, 0, size, copied + size;
      assert Contents() == old(Contents());
    }

    /// Writes at the tail of a ring that has room.
    method Append(msg: Message)
      requires Valid() && size < buf.Length
      modifies this`tail, this`size, buf
      ensures Valid() && size == old(size) + 1 && Contents() == old(Contents()) + [msg]
    {
      RingAppends(buf[..], head, size, msg);
      buf[tail] := Some(msg);
      SlotIsMod(tail, 1, buf.Length);
      tail := (tail + 1) % buf.Length;
      size := size + 1;
      assert buf[..] == old(buf[..])[old(tail) := Some(msg)];
    }

    /// Takes the oldest message off.
    method Advance() returns (msg: Option<Message>)
      requires Readable() && size > 0
      modifies this`head, this`size, buf
      ensures Readable() && size == old(size) - 1 && (old(Valid()) ==> Valid())
      ensures msg == Some(old(Contents())[0]) && Contents() == old(Contents())[1..]
    {
      RingPops(buf[..], head, size);
      msg := buf[head];
      buf[head] := None;
      SlotIsMod(head, 1, buf.Length);
      head := (head + 1) % buf.Length;
      size := size - 1;
      assert buf[..] == old(buf[..])[old(head) := None];
    }

    /// A full mailbox of maximum size 0: the message is written but never counted.
    method OverwriteEmpty(msg: Message)
      requires Valid() && size == 0
      modifies this`head, this`tail, buf
      ensures Valid() && Contents() == []
    {
      buf[head] := None;
      SlotIsMod(head, 1, buf.Length);
      head := (head + 1) % buf.Length;
      buf[tail] := Some(msg);
      SlotIsMod(tail, 1, buf.Length);
      tail := (tail + 1) % buf.Length;
    }

    method EvictOldest(msg: Message) returns (evicted: Option<Message>)
      requires Valid()
      modifies this`head, this`tail, this`size, buf
      ensures Valid() && size == old(size) && Contents() == (old(Contents()) + [msg])[1..]
      ensures evicted == if old(size) > 0 then Some(old(Contents())[0]) else None
    {
      if size > 0 {
        ghost var q := Contents();
        evicted := Advance();
        Append(msg);
        assert (q + [msg])[1..] == q[1..] + [msg];
      } else {
        evicted := None;
        OverwriteEmpty(msg);
      }
    }

    method Accept(msg: Message)
      requires Accounted() && Readable() && (Valid() || size == buf.Length)
      modifies this, buf
      ensures Valid() && Accounted() && (buf == old(buf) || fresh(buf))
      ensures Contents() == old(Contents()) + [msg] && Moved(1, 0, 0, 0, 0)
    {
      if size == buf.Length { Grow(); }
      Append(msg);
      offered, peak := offered + 1, Max(peak, size);
    }

    /// Offers a message.  When full: the newest is refused, or the oldest gives way (its caller is to be
    /// rejected, if it has one), or an error is thrown.
    method Enqueue(msg: Message) returns (answer: Answer, evicted: Option<Message>)
      requires Accounted() && Readable() && (Valid() || (size == buf.Length && !IsFull()))
      modifies this, buf
      ensures Valid() && Accounted() && (buf == old(buf) || fresh(buf))
      ensures var o := OfferTo(old(Contents()), old(IsFull()), strategy, msg);
        Contents() == o.queue && answer == o.answer && evicted == o.evicted && Moved(1, 0, 0, o.dropped, 0)
    {
      evicted := None;
      if !IsFull() {
        Accept(msg);
        return Accepted, None;
      }
      offered, droppedCount := offered + 1, droppedCount + 1;
      match strategy
      case DropNewest => answer := Refused;
      case DropOldest =>
        evicted := EvictOldest(msg);
        answer := Accepted;
      case Error => answer := Thrown;
    }

    method Dequeue() returns (msg: Option<Message>)
      requires Readable() && Accounted()
      modifies this, buf
      ensures Readable() && Accounted() && (old(Valid()) ==> Valid()) && buf == old(buf)
      ensures old(size) == 0 ==> msg == None && Contents() == [] && Moved(0, 0, 0, 0, 0)
      ensures old(size) > 0 ==> msg == Some(old(Contents())[0]) && Contents() == old(Contents())[1..] && Moved(0, 0, 1, 0, 0)
    {
      if size == 0 { return None; }
      msg := Advance();
      dequeued := dequeued + 1;
    }

    /// Moves the head back by one and writes there.
    method Push(msg: Message)
      requires Readable() && size < buf.Length
      modifies this`head, this`size, buf
      ensures Readable() && size == old(size) + 1 && Contents() == [msg] + old(Contents())
      ensures old(Valid()) ==> Valid()
    {
      RingPushes(buf[..], head, size, msg);
      SlotIsMod(head, buf.Length - 1, buf.Length);
      head := (head + (buf.Length - 1)) % buf.Length;
      buf[head] := Some(msg);
      size := size + 1;
      assert buf[..] == old(buf[..])[head := Some(msg)];
    }

    /// Grows until `room` more messages fit.
    method MakeRoom(room: nat)
      requires Readable() && Accounted() && size + room <= peak
      modifies this`buf, this`head, this`tail, this`copied
      ensures Readable() && Accounted() && Contents() == old(Contents()) && size + room <= buf.Length
      ensures buf == old(buf) || fresh(buf)
      ensures old(Valid()) || old(size + room > buf.Length) ==> Valid()
    {
      while size + room > buf.Length
        invariant Readable() && Accounted() && Contents() == old(Contents())
        invariant (buf == old(buf) && head == old(head) && tail == old(tail)) || (fresh(buf) && Valid())
        decreases size + room - buf.Length
      {
        Grow();
      }
    }

    method Unshift(msgs: seq<Message>)
      requires Readable() && Accounted()
      modifies this, buf
      ensures Readable() && Accounted() && (buf == old(buf) || fresh(buf))
      ensures old(Valid()) || old(size + |msgs| > buf.Length) ==> Valid()
      ensures Contents() == msgs + old(Contents()) && Moved(0, |msgs|, 0, 0, 0)
    {
      peak := Max(peak, size + |msgs|);
      MakeRoom(|msgs|);
      PushAll(msgs);
      prepended := prepended + |msgs|;
    }

    method PushAll(msgs: seq<Message>)
      requires Readable() && size + |msgs| <= buf.Length
      modifies this`head, this`size, buf
      ensures Readable() && size == old(size) + |msgs| && Contents() == msgs + old(Contents())
      ensures old(Valid()) ==> Valid()
    {
      ghost var start := Contents();
      ghost var valid := Valid();
      assert size == |start|;
      hide Readable, Contents, Valid;
      var i := |msgs|;
      while i > 0
        invariant 0 <= i <= |msgs| && Readable() && size == |start| + |msgs| - i
        invariant Contents() == msgs[i..] + start
        invariant valid ==> Valid()
      {
        i := i - 1;
        Push(msgs[i]);
        Prepended(msgs, i, start);
      }
      assert msgs[0..] == msgs;
    }

    method Clear()
      requires Accounted()
      modifies this, buf
      ensures Valid() && Accounted() && buf == old(buf) && Contents() == [] && Moved(0, 0, 0, 0, old(size))
    {
      forall i | 0 <= i < buf.Length { buf[i] := None; }
      discarded := discarded + size;
      head, tail, size := 0, 0, 0;
    }

    method ToArray() returns (result: seq<Message>)
      requires Readable()
      ensures result == Contents()
    {
      result := [];
      for i := 0 to size
        invariant result == Contents()[..i]
      {
        SlotIsMod(head, i, buf.Length);
        result := result + [buf[(head + i) % buf.Length].value];
      }
    }

    method Drain() returns (pending: seq<Message>)
      requires Readable() && Accounted()
      modifies this, buf
      ensures Valid() && Accounted() && buf == old(buf) && Contents() == []
      ensures pending == old(Contents()) && Moved(0, 0, 0, 0, |pending|)
    {
      pending := ToArray();
      Clear();
    }

    /// Bulk loading: the contents are right, but the write index is only where it belongs when the
    /// messages do not fill the ring to its last slot.
    method ReplaceWith(msgs: seq<Message>)
      requires Accounted()
      modifies this, buf
      ensures Readable() && Accounted() && (buf == old(buf) || fresh(buf))
      ensures Contents() == msgs && head == 0 && tail == |msgs|
      ensures buf.Length == Max(old(buf.Length), Max(16, NextPow2(|msgs|)))
      ensures Valid() <==> |msgs| < buf.Length
      ensures offered == old(offered) && prepended == old(prepended) && dequeued == old(dequeued) && droppedCount == old(droppedCount)
      ensures discarded == old(discarded) + old(size) && loaded == old(loaded) + |msgs| && peak == Max(old(peak), |msgs|)
    {
      Load(msgs);
      discarded, loaded, bulk := discarded + old(size), loaded + |msgs|, true;
      peak := Max(peak, |msgs|);
    }

    method Load(msgs: seq<Message>)
      modifies this`buf, this`head, this`tail, this`size, buf
      ensures Readable() && (buf == old(buf) || fresh(buf)) && Contents() == msgs
      ensures head == 0 && tail == size == |msgs| && buf.Length == Max(old(buf.Length), Max(16, NextPow2(|msgs|)))
    {
      var needed := Max(16, NextPow2(|msgs|));
      if buf.Length < needed {
        buf := new Option<Message>[needed](_ => None);
      } else {
        forall i | 0 <= i < buf.Length { buf[i] := None; }
      }
      head, tail, size := 0, |msgs|, |msgs|;
      Fill(msgs);
      RingLoaded(buf[..], msgs);
    }

    method Fill(msgs: seq<Message>)
      requires |msgs| <= buf.Length
      modifies buf
      ensures forall j :: 0 <= j < |msgs| ==> buf[j] == Some(msgs[j])
    {
      for i := 0 to |msgs|
        invariant forall j :: 0 <= j < i ==> buf[j] == Some(msgs[j])
      {
        buf[i] := Some(msgs[i]);
      }
    }
  }
}

/// Bulk loading a ring exactly to its last slot leaves the write index one past the end.  The ring is then
/// a growable array that a write at its length extends by one, as here.
module BulkLoad {
  import opened Basics
  import opened RingSizes
  import opened Mailbox

  datatype Ring = Ring(slots: seq<Option<Message>>, head: nat, tail: nat, size: nat)

  function ReplaceWith(r: Ring, msgs: seq<Message>): Ring {
    var length := Max(|r.slots|, Max(16, NextPow2(|msgs|)));
    Ring(seq(length, i => if 0 <= i < |msgs| then Some(msgs[i]) else None), 0, |msgs|, |msgs|)
  }

  function Dequeue(r: Ring): Ring {
    if r.size == 0 || r.head >= |r.slots| then r
    else Ring(r.slots[r.head := None], (r.head + 1) % |r.slots|, r.tail, r.size - 1)
  }

  function DequeueTimes(r: Ring, n: nat): Ring {
    if n == 0 then r else Dequeue(DequeueTimes(r, n - 1))
  }

  /// A ring twice as long, the queue at its start.
  function Grow(r: Ring): Ring
    requires r.slots != []
  {
    Ring(seq(2 * |r.slots|, i requires 0 <= i => if i < r.size then r.slots[(r.head + i) % |r.slots|] else None), 0, r.size, r.size)
  }

  /// Enqueue in an unbounded mailbox.
  function Enqueue(r: Ring, m: Message): Ring
    requires r.size <= |r.slots| && r.slots != [] && r.tail <= |r.slots|
  {
    var g := if r.size == |r.slots| then Grow(r) else r;
    var slots := if g.tail < |g.slots| then g.slots[g.tail := Some(m)] else g.slots + [Some(m)];
    Ring(slots, g.head, (g.tail + 1) % |slots|, g.size + 1)
  }

  /// What reading the queue off the ring yields; `None` stands for `undefined`.
  function ToArray(r: Ring): seq<Option<Message>>
    requires r.slots != []
  {
    seq(r.size, i requires 0 <= i < r.size => r.slots[(r.head + i) % |r.slots|])
  }

  lemma {:induction false} Drained(r: Ring, msgs: seq<Message>, n: nat)
    requires n <= |msgs|
    ensures var full := ReplaceWith(r, msgs);
      var q := DequeueTimes(full, n);
      && |q.slots| == |full.slots| && q.tail == |msgs| && q.size == |msgs| - n
      && q.head == (if n < |full.slots| then n else 0)
      && (forall i :: 0 <= i < n ==> q.slots[i] == None)
      && (forall i :: n <= i < |msgs| ==> q.slots[i] == Some(msgs[i]))
  {
    if n > 0 {
      Drained(r, msgs, n - 1);
      var length := |ReplaceWith(r, msgs).slots|;
      SlotIsMod(n - 1, 1, length);
    }
  }

  function Queue(msgs: seq<Message>): seq<Option<Message>> { seq(|msgs|, i requires 0 <= i < |msgs| => Some(msgs[i])) }

  lemma ReadsAs(r: Ring, s: seq<Option<Message>>)
    requires r.slots != [] && r.head + r.size <= |r.slots| && |s| == r.size
    requires forall i :: 0 <= i < r.size ==> r.slots[r.head + i] == s[i]
    ensures ToArray(r) == s
  {
    forall i | 0 <= i < r.size ensures r.slots[(r.head + i) % |r.slots|] == s[i] { SlotIsMod(r.head, i, |r.slots|); }
  }

  /// Load `msgs`, process `n` of them, and enqueue one more. What is left and the new message are then read off the ring
  /// in order, except when the load filled the ring to its last slot and has been worked off completely.
  lemma NextMessageSurvives(r: Ring, msgs: seq<Message>, n: nat, m: Message)
    requires n <= |msgs|
    ensures var full := ReplaceWith(r, msgs);
      var q := DequeueTimes(full, n);
      && q.size <= |q.slots| && q.slots != [] && q.tail <= |q.slots| && Enqueue(q, m).slots != []
      && (ToArray(Enqueue(q, m)) == Queue(msgs[n..] + [m]) <==> |msgs| < |full.slots| || n < |msgs|)
  {
    Drained(r, msgs, n);
    var full := ReplaceWith(r, msgs);
    var q := DequeueTimes(full, n);
    hide DequeueTimes, ReplaceWith;
    if |msgs| < |full.slots| || 0 < n < |msgs| {
      FitsBehind(q, msgs, n, m);
    } else if n == 0 {
      GrowsFirst(q, msgs, m);
    } else {
      IsLost(q, msgs, m);
    }
  }

  /// There is room behind the last element, at worst by extending the array.
  lemma FitsBehind(q: Ring, msgs: seq<Message>, n: nat, m: Message)
    requires n <= |msgs| <= |q.slots| && q.slots != [] && q.tail == |msgs| && q.size == |msgs| - n && q.head == n
    requires n < |q.slots| && q.size < |q.slots| && forall i :: n <= i < |msgs| ==> q.slots[i] == Some(msgs[i])
    ensures ToArray(Enqueue(q, m)) == Queue(msgs[n..] + [m])
  {
    ReadsAs(Enqueue(q, m), Queue(msgs[n..] + [m]));
  }

  lemma GrowsFirst(q: Ring, msgs: seq<Message>, m: Message)
    requires q.slots != [] && |msgs| == |q.slots| == q.size && q.head == 0 && q.tail == |msgs|
    requires forall i :: 0 <= i < |msgs| ==> q.slots[i] == Some(msgs[i])
    ensures Enqueue(q, m).slots != [] && ToArray(Enqueue(q, m)) == Queue(msgs[0..] + [m])
  {
    var g := Grow(q);
    forall i | 0 <= i < |msgs| ensures g.slots[i] == Some(msgs[i]) { SlotIsMod(0, i, |q.slots|); }
    FitsBehind(g, msgs, 0, m);
    assert Enqueue(q, m) == Enqueue(g, m);
  }

  lemma IsLost(q: Ring, msgs: seq<Message>, m: Message)
    requires q.slots != [] && |msgs| == |q.slots| && q.head == 0 && q.tail == |msgs| && q.size == 0
    requires forall i :: 0 <= i < |msgs| ==> q.slots[i] == None
    ensures ToArray(Enqueue(q, m)) != Queue(msgs[|msgs|..] + [m])
  {
    var after := Enqueue(q, m);
    SlotIsMod(0, 0, |after.slots|);
    assert |ToArray(after)| == 1 && ToArray(after)[0] == None;
    assert Queue(msgs[|msgs|..] + [m])[0] == Some(m);
  }

  /// The smallest loss: sixteen messages loaded into a fresh mailbox.
  lemma {:induction false} SixteenLoseTheNext(msgs: seq<Message>, m: Message)
    requires |msgs| == 16
    ensures var q := DequeueTimes(ReplaceWith(Ring(seq(16, _ => None), 0, 0, 0), msgs), 16);
      && q.size == 0 && q.slots != [] && q.tail <= |q.slots| && Enqueue(q, m).slots != []
      && ToArray(Enqueue(q, m)) != Queue([m])
  {
    assert NextPow2(16) == 16 by {
      assert NextPow2(2) == 2 && NextPow2(4) == 4 && NextPow2(8) == 8;
    }
    var unused := Ring(seq(16, _ => None), 0, 0, 0);
    NextMessageSurvives(unused, msgs, 16, m);
    assert msgs[16..] + [m] == [m];
    Drained(unused, msgs, 16);
  }
}
