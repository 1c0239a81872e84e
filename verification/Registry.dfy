/// The replicated actor registry: one replica, then a cluster of them exchanging updates in any order,
/// any number of times.

module Registry {
  import opened Basics
  import opened VectorClock

  type Name = nat

  /// `node` is where the actor lives, `generation` the wall-clock time of registration.
  datatype Registration = Registration(name: Name, node: Node, actor: nat, generation: int, clock: Clock)

  datatype Replica = Replica(localClock: Clock, registrations: map<Name, Registration>)

  /// Higher generation wins, then higher node.
  predicate Outranks(a: Registration, b: Registration) {
    a.generation > b.generation || (a.generation == b.generation && a.node > b.node)
  }

  /// Whether an incoming registration replaces the existing one.
  ghost predicate Beats(a: Registration, b: Registration) {
    Compare(a.clock, b.clock) == After || (Compare(a.clock, b.clock) == Concurrent && Outranks(a, b))
  }

  function Registered(r: Replica, me: Node, name: Name, node: Node, actor: nat, now: int): Registration {
    Registration(name, node, actor, now, Increment(r.localClock, me))
  }

  function Register(r: Replica, me: Node, name: Name, node: Node, actor: nat, now: int): Replica {
    var reg := Registered(r, me, name, node, actor, now);
    Replica(reg.clock, r.registrations[name := reg])
  }

  /// The update published for removing `name`.
  function Unregistered(r: Replica, me: Node, name: Name): Registration
    requires name in r.registrations
  {
    r.registrations[name].(clock := Increment(r.localClock, me))
  }

  function Unregister(r: Replica, me: Node, name: Name): Replica {
    if name !in r.registrations then r
    else Replica(Increment(r.localClock, me), r.registrations - {name})
  }

  ghost predicate Accepts(r: Replica, reg: Registration) {
    reg.name !in r.registrations || Beats(reg, r.registrations[reg.name])
  }

  ghost function OnRegister(r: Replica, reg: Registration): Replica {
    if Accepts(r, reg) then Replica(Merge(r.localClock, reg.clock), r.registrations[reg.name := reg]) else r
  }

  ghost predicate AcceptsRemoval(r: Replica, reg: Registration) {
    reg.name in r.registrations && Compare(reg.clock, r.registrations[reg.name].clock) != Before
  }

  ghost function OnUnregister(r: Replica, reg: Registration): Replica {
    if AcceptsRemoval(r, reg) then Replica(Merge(r.localClock, reg.clock), r.registrations - {reg.name}) else r
  }

  function OnPeerLeave(r: Replica, gone: Node): Replica {
    Replica(r.localClock, map name | name in r.registrations && r.registrations[name].node != gone :: r.registrations[name])
  }

  /// Clocks travel as plain maps, so the object holds its clocks by value.
  class RegistrySync {
    const me: Node
    var localClock: Clock
    var registrations: map<Name, Registration>

    ghost function State(): Replica reads this { Replica(localClock, registrations) }

    constructor (me: Node)
      ensures this.me == me && State() == Replica(map[], map[])
    {
      this.me, localClock, registrations := me, map[], map[];
    }

    method RegisterName(name: Name, node: Node, actor: nat, now: int) returns (published: Registration)
      modifies this
      ensures State() == Register(old(State()), me, name, node, actor, now)
      ensures published == Registered(old(State()), me, name, node, actor, now) && Entry(State(), name) == Some(published)
      ensures published.name == name && published.node == node && published.actor == actor && published.generation == now
    {
      var clock := new VectorClock(localClock);
      clock.IncrementNode(me);
      localClock := clock.clock;
      published := Registration(name, node, actor, now, localClock);
      registrations := registrations[name := published];
    }

    method UnregisterName(name: Name) returns (published: Option<Registration>)
      modifies this
      ensures State() == Unregister(old(State()), me, name)
      ensures published == if name in old(registrations) then Some(Unregistered(old(State()), me, name)) else None
    {
      if name !in registrations { return None; }
      var clock := new VectorClock(localClock);
      clock.IncrementNode(me);
      localClock := clock.clock;
      published := Some(registrations[name].(clock := localClock));
      registrations := registrations - {name};
    }

    method MergeLocal(incoming: Clock)
      modifies this`localClock
      ensures localClock == Merge(old(localClock), incoming)
    {
      var mine := new VectorClock(localClock);
      var other := new VectorClock(incoming);
      mine.MergeFrom(other);
      localClock := mine.clock;
    }

    method HandleUpdate(unregister: bool, reg: Registration)
      modifies this
      ensures State() == if unregister then OnUnregister(old(State()), reg) else OnRegister(old(State()), reg)
    {
      if reg.name !in registrations {
        if !unregister {
          registrations := registrations[reg.name := reg];
          MergeLocal(reg.clock);
        }
        return;
      }
      var existing := registrations[reg.name];
      var incoming := new VectorClock(reg.clock);
      var stored := new VectorClock(existing.clock);
      var cmp := incoming.CompareTo(stored);
      if unregister {
        if cmp == After || cmp == Concurrent {
          registrations := registrations - {reg.name};
          MergeLocal(reg.clock);
        }
        return;
      }
      if cmp == After {
        registrations := registrations[reg.name := reg];
        MergeLocal(reg.clock);
      } else if cmp == Concurrent {
        if reg.generation > existing.generation {
          registrations := registrations[reg.name := reg];
          MergeLocal(reg.clock);
        } else if reg.generation == existing.generation && reg.node > existing.node {
          registrations := registrations[reg.name := reg];
          MergeLocal(reg.clock);
        }
      }
    }

    method HandlePeerLeave(gone: Node)
      modifies this`registrations
      ensures State() == OnPeerLeave(old(State()), gone)
    {
      var todo := registrations.Keys;
      while todo != {}
        invariant todo <= old(registrations).Keys
        invariant registrations == map name | name in old(registrations) && (name in todo || old(registrations)[name].node != gone) ::
                                     old(registrations)[name]
        decreases |todo|
      {
        var name :| name in todo;
        todo := todo - {name};
        if registrations[name].node == gone { registrations := registrations - {name}; }
      }
    }
  }

  // ---------------------------------------------------------------------------------------------
  // One name, any order of arrival

  ghost function ArriveOne(entry: Option<Registration>, r: Registration): Option<Registration> {
    if entry.None? || Beats(r, entry.value) then Some(r) else entry
  }

  ghost function Arrive(entry: Option<Registration>, arrivals: seq<Registration>): Option<Registration> {
    if arrivals == [] then entry
    else ArriveOne(Arrive(entry, arrivals[..|arrivals| - 1]), arrivals[|arrivals| - 1])
  }

  ghost function Entry(r: Replica, name: Name): Option<Registration> {
    if name in r.registrations then Some(r.registrations[name]) else None
  }

  /// A replica handed registrations one after another.
  ghost function HandedAll(r: Replica, arrivals: seq<Registration>): Replica {
    if arrivals == [] then r else OnRegister(HandedAll(r, arrivals[..|arrivals| - 1]), arrivals[|arrivals| - 1])
  }

  /// What the handler makes of the registrations of a name is what their arrival makes of its entry.
  lemma {:induction false} HandedIsArrived(r: Replica, arrivals: seq<Registration>, name: Name)
    requires forall reg :: reg in arrivals ==> reg.name == name
    ensures Entry(HandedAll(r, arrivals), name) == Arrive(Entry(r, name), arrivals)
  {
    if arrivals != [] {
      var before, last := arrivals[..|arrivals| - 1], arrivals[|arrivals| - 1];
      assert arrivals == before + [last];
      HandedIsArrived(r, before, name);
    }
  }

  /// Of two concurrent registrations of a name the later one stays, and of two made at the same time the one on the
  /// higher node, whichever arrives first.
  lemma HigherRankStays(a: Registration, b: Registration)
    requires Compare(a.clock, b.clock) == Concurrent
    requires a.generation > b.generation || (a.generation == b.generation && a.node > b.node)
    ensures Arrive(None, [a, b]) == Arrive(None, [b, a]) == Some(a)
  {
    CompareFlips(a.clock, b.clock);
    FirstToArrive(a);
    FirstToArrive(b);
    hide Compare;
    assert [a, b][..1] == [a] && [b, a][..1] == [b];
    assert Arrive(None, [a, b]) == ArriveOne(Arrive(None, [a]), b) && Arrive(None, [b, a]) == ArriveOne(Arrive(None, [b]), a);
  }

  lemma FirstToArrive(a: Registration)
    ensures Arrive(None, [a]) == Some(a)
  {
    assert [a][..0] == [];
    assert Arrive(None, []) == None;
  }

  /// `arrivals` brings each of `regs`, in some order and with repetitions.
  ghost predicate Brings(arrivals: seq<Registration>, regs: set<Registration>) {
    forall r :: r in arrivals <==> r in regs
  }

  ghost predicate Unbeaten(w: Registration, regs: set<Registration>) {
    w in regs && forall r :: r in regs && r != w ==> Beats(w, r)
  }

  lemma {:induction false} CompareFlips(c: Clock, d: Clock)
    ensures Compare(c, d) == Before <==> Compare(d, c) == After
    ensures Compare(c, d) == Concurrent <==> Compare(d, c) == Concurrent
    ensures Compare(c, c) == Concurrent
  {
  }

  lemma {:induction false} ArriveMember(arrivals: seq<Registration>)
    ensures arrivals != [] ==> Arrive(None, arrivals).Some? && Arrive(None, arrivals).value in arrivals
  {
    if arrivals != [] {
      ArriveMember(arrivals[..|arrivals| - 1]);
    }
  }

  lemma {:induction false} UnbeatenStays(arrivals: seq<Registration>, w: Registration, regs: set<Registration>)
    requires Unbeaten(w, regs) && w in arrivals && forall r :: r in arrivals ==> r in regs
    ensures Arrive(None, arrivals) == Some(w)
  {
    var n := |arrivals| - 1;
    var last := arrivals[n];
    assert arrivals == arrivals[..n] + [last];
    ArriveMember(arrivals[..n]);
    if w in arrivals[..n] {
      UnbeatenStays(arrivals[..n], w, regs);
      if last != w {
        assert last in regs && Beats(w, last);
        CompareFlips(w.clock, last.clock);
      }
    } else if n > 0 {
      var x := Arrive(None, arrivals[..n]).value;
      assert x in regs && x != w;
    }
  }

  function Others(arrivals: seq<Registration>, w: Registration): seq<Registration> {
    if arrivals == [] then []
    else Others(arrivals[..|arrivals| - 1], w) + if arrivals[|arrivals| - 1] == w then [] else [arrivals[|arrivals| - 1]]
  }

  lemma {:induction false} OthersAre(arrivals: seq<Registration>, w: Registration, r: Registration)
    ensures r in Others(arrivals, w) <==> r in arrivals && r != w
  {
    if arrivals != [] {
      assert arrivals == arrivals[..|arrivals| - 1] + [arrivals[|arrivals| - 1]];
      OthersAre(arrivals[..|arrivals| - 1], w, r);
    }
  }

  /// An entry that is not `w` does not become `w` when `w` does not arrive again.
  lemma {:induction false} NeverBecomes(before: seq<Registration>, rest: seq<Registration>, w: Registration)
    requires Arrive(None, before) != Some(w) && w !in rest
    ensures Arrive(None, before + rest) != Some(w)
  {
    if rest == [] {
      assert before + rest == before;
    } else {
      var n := |rest| - 1;
      assert (before + rest)[..|before| + n] == before + rest[..n];
      NeverBecomes(before, rest[..n], w);
    }
  }

  /// If `w` does not beat `r`, an order that brings `r`, then `w`, then everything else does not end in `w`.
  lemma UnbeatenIsNeeded(regs: set<Registration>, all: seq<Registration>, w: Registration, r: Registration)
      returns (arrivals: seq<Registration>)
    requires Brings(all, regs) && w in regs && r in regs && r != w && !Beats(w, r)
    ensures Brings(arrivals, regs) && Arrive(None, arrivals) != Some(w)
  {
    arrivals := [r, w] + Others(all, w);
    forall x ensures x in arrivals <==> x in regs { OthersAre(all, w, x); }
    assert [r, w][..1] == [r] && [r][..0] == [];
    assert Arrive(None, [r]) == Some(r);
    assert Arrive(None, [r, w]) == Some(r);
    OthersAre(all, w, w);
    NeverBecomes([r, w], Others(all, w), w);
  }

  /// The exact condition for convergence on a name: every order of arrival, with any repetitions, ends in
  /// the same entry if and only if one of the registrations beats all the others.
  lemma {:induction false} ConvergesIffUnbeaten(regs: set<Registration>, all: seq<Registration>, w: Registration)
    requires Brings(all, regs) && w in regs
    ensures Unbeaten(w, regs) <==> forall arrivals :: Brings(arrivals, regs) ==> Arrive(None, arrivals) == Some(w)
  {
    if Unbeaten(w, regs) {
      forall arrivals | Brings(arrivals, regs) ensures Arrive(None, arrivals) == Some(w) {
        UnbeatenStays(arrivals, w, regs);
      }
    } else {
      var r :| r in regs && r != w && !Beats(w, r);
      var arrivals := UnbeatenIsNeeded(regs, all, w, r);
      assert Brings(arrivals, regs) && Arrive(None, arrivals) != Some(w);
    }
  }
}
