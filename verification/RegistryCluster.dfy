/// A cluster of registry replicas.  Published updates stay deliverable for ever: in any order, any number
/// of times, to any node, which also covers re-publication.

module RegistryCluster {
  import opened Basics
  import opened VectorClock
  import opened Registry

  /// One published update, with its author and the author's causal past.
  datatype Publication = Publication(removal: bool, reg: Registration, author: Node, past: set<Tick>)

  /// A node: its replica; its causal past, kept independently of the clock as its own ticks and the pasts
  /// of the updates it accepted; and the registrations it made or received.
  datatype Site = Site(r: Replica, past: set<Tick>, seen: set<Registration>)

  datatype Cluster = Cluster(sites: map<Node, Site>, log: seq<Publication>)

  datatype Step =
    | Registers(n: Node, name: Name, actor: nat, now: int)
    | Unregisters(n: Node, name: Name)
    | Receives(n: Node, i: nat)
    | SeesLeave(n: Node, gone: Node)

  ghost function Start(nodes: set<Node>): Cluster {
    Cluster(map n | n in nodes :: Site(Replica(map[], map[]), {}, {}), [])
  }

  ghost predicate Enabled(c: Cluster, step: Step) {
    && step.n in c.sites
    && (step.Unregisters? ==> step.name in c.sites[step.n].r.registrations)
    && (step.Receives? ==> step.i < |c.log|)
  }

  ghost predicate Takes(r: Replica, p: Publication) {
    if p.removal then AcceptsRemoval(r, p.reg) else Accepts(r, p.reg)
  }

  /// The past of a node once it has made its next tick.
  ghost function Ticked(s: Site, n: Node): set<Tick> {
    s.past + {Tick(n, Get(s.r.localClock, n) + 1)}
  }

  ghost function Receive(s: Site, p: Publication): Site {
    Site(if p.removal then OnUnregister(s.r, p.reg) else OnRegister(s.r, p.reg),
         if Takes(s.r, p) then s.past + p.past else s.past,
         if p.removal then s.seen else s.seen + {p.reg})
  }

  ghost function Next(c: Cluster, step: Step): Cluster
    requires Enabled(c, step)
  {
    var n := step.n;
    var s := c.sites[n];
    match step
    case Registers(_, name, actor, now) =>
      var reg := Registered(s.r, n, name, n, actor, now);
      Cluster(c.sites[n := Site(Register(s.r, n, name, n, actor, now), Ticked(s, n), s.seen + {reg})],
              c.log + [Publication(false, reg, n, Ticked(s, n))])
    case Unregisters(_, name) =>
      Cluster(c.sites[n := Site(Unregister(s.r, n, name), Ticked(s, n), s.seen)],
              c.log + [Publication(true, Unregistered(s.r, n, name), n, Ticked(s, n))])
    case Receives(_, i) => c.(sites := c.sites[n := Receive(s, c.log[i])])
    case SeesLeave(_, gone) => c.(sites := c.sites[n := s.(r := OnPeerLeave(s.r, gone))])
  }

  ghost predicate Reaches(c: Cluster, steps: seq<Step>, c': Cluster)
    decreases |steps|
  {
    if steps == [] then c == c' else Enabled(c, steps[0]) && Reaches(Next(c, steps[0]), steps[1..], c')
  }

  // ---------------------------------------------------------------------------------------------
  // Clocks are causal pasts

  ghost function Own(c: Cluster, n: Node): nat {
    if n in c.sites then Get(c.sites[n].r.localClock, n) else 0
  }

  /// A clock held or published anywhere knows no tick of `n` that `n` has not made.
  ghost predicate Knows(c: Cluster, clock: Clock) {
    forall n :: n in c.sites ==> Get(clock, n) <= Own(c, n)
  }

  ghost predicate LogOk(c: Cluster, p: Publication) {
    Summarizes(p.reg.clock, p.past) && Knows(c, p.reg.clock)
    && p.author in c.sites && Leq(p.reg.clock, c.sites[p.author].r.localClock)
  }

  ghost predicate SiteOk(c: Cluster, s: Site) {
    && Summarizes(s.r.localClock, s.past) && Knows(c, s.r.localClock)
    && forall name :: name in s.r.registrations ==> EntryOk(s.r, name)
  }

  /// The local clock dominates the clock of every entry.
  ghost predicate EntryOk(r: Replica, name: Name)
    requires name in r.registrations
  {
    r.registrations[name].name == name && Leq(r.registrations[name].clock, r.localClock)
  }

  ghost predicate Causal(c: Cluster) {
    && (forall i :: 0 <= i < |c.log| ==> LogOk(c, c.log[i]))
    && (forall n :: n in c.sites ==> SiteOk(c, c.sites[n]))
  }

  /// Nobody's own tick count falls, and clocks only grow.
  ghost predicate Grows(c: Cluster, c': Cluster) {
    c.sites.Keys == c'.sites.Keys && forall n :: n in c.sites ==> Leq(c.sites[n].r.localClock, c'.sites[n].r.localClock)
  }

  lemma {:induction false} KnowsGrows(c: Cluster, c': Cluster, clock: Clock)
    requires Grows(c, c') && Knows(c, clock)
    ensures Knows(c', clock)
  {
    forall n | n in c'.sites ensures Get(clock, n) <= Own(c', n) {
      assert Leq(c.sites[n].r.localClock, c'.sites[n].r.localClock);
      assert Get(clock, n) <= Own(c, n);
    }
  }

  lemma {:induction false} LogOkGrows(c: Cluster, c': Cluster, p: Publication)
    requires Grows(c, c') && LogOk(c, p)
    ensures LogOk(c', p)
  {
    KnowsGrows(c, c', p.reg.clock);
    LeqTransitive(p.reg.clock, c.sites[p.author].r.localClock, c'.sites[p.author].r.localClock);
  }

  /// Replacing one site by a good one, and appending good publications, keeps a cluster causal.
  lemma {:induction false} ReplaceSite(c: Cluster, n: Node, s': Site, more: seq<Publication>)
    requires Causal(c) && n in c.sites && Leq(c.sites[n].r.localClock, s'.r.localClock)
    requires var c' := Cluster(c.sites[n := s'], c.log + more);
      SiteOk(c', s') && forall i :: 0 <= i < |more| ==> LogOk(c', more[i])
    ensures Causal(Cluster(c.sites[n := s'], c.log + more))
  {
    var c' := Cluster(c.sites[n := s'], c.log + more);
    assert Grows(c, c') by {
      forall m | m in c.sites ensures Leq(c.sites[m].r.localClock, c'.sites[m].r.localClock) {
        assert m != n ==> c'.sites[m] == c.sites[m];
      }
    }
    forall i | 0 <= i < |c'.log| ensures LogOk(c', c'.log[i]) {
      if i < |c.log| { LogOkGrows(c, c', c.log[i]); } else { assert c'.log[i] == more[i - |c.log|]; }
    }
    forall m | m in c'.sites ensures SiteOk(c', c'.sites[m]) {
      if m != n {
        assert SiteOk(c, c.sites[m]);
        KnowsGrows(c, c', c.sites[m].r.localClock);
      }
    }
  }

  /// Entries of the new replica are old ones or the one just written.
  ghost predicate EntriesFrom(r: Replica, r': Replica, reg: Registration) {
    forall name :: name in r'.registrations ==>
      (name in r.registrations && r'.registrations[name] == r.registrations[name])
      || (name == reg.name && r'.registrations[name] == reg)
  }

  lemma {:induction false} EntriesOk(r: Replica, r': Replica, reg: Registration)
    requires (forall name :: name in r.registrations ==> EntryOk(r, name)) && EntriesFrom(r, r', reg)
    requires Leq(r.localClock, r'.localClock) && (reg in r'.registrations.Values ==> Leq(reg.clock, r'.localClock))
    ensures forall name :: name in r'.registrations ==> EntryOk(r', name)
  {
    forall name | name in r'.registrations ensures EntryOk(r', name) {
      if name in r.registrations && r'.registrations[name] == r.registrations[name] {
        assert EntryOk(r, name);
        LeqTransitive(r.registrations[name].clock, r.localClock, r'.localClock);
      }
    }
  }

  lemma {:induction false} PublishCausal(c: Cluster, n: Node, s': Site, removal: bool, reg: Registration)
    requires Causal(c) && n in c.sites
    requires var s := c.sites[n];
      && reg.clock == s'.r.localClock == Increment(s.r.localClock, n)
      && s'.past == Ticked(s, n) && EntriesFrom(s.r, s'.r, reg)
    ensures Causal(Cluster(c.sites[n := s'], c.log + [Publication(removal, reg, n, s'.past)]))
  {
    var s, p := c.sites[n], Publication(removal, reg, n, s'.past);
    var c' := Cluster(c.sites[n := s'], c.log + [p]);
    assert SiteOk(c, s);
    IncrementSummarizes(s.r.localClock, s.past, n);
    assert Leq(s.r.localClock, s'.r.localClock);
    forall m | m in c'.sites ensures Get(reg.clock, m) <= Own(c', m) {
      assert Get(s.r.localClock, m) <= Own(c, m);
    }
    EntriesOk(s.r, s'.r, reg);
    ReplaceSite(c, n, s', [p]);
  }

  lemma {:induction false} AcceptCausal(c: Cluster, n: Node, p: Publication, s': Site)
    requires Causal(c) && n in c.sites && LogOk(c, p)
    requires var s := c.sites[n];
      && s'.r.localClock == Merge(s.r.localClock, p.reg.clock) && s'.past == s.past + p.past && EntriesFrom(s.r, s'.r, p.reg)
    ensures Causal(c.(sites := c.sites[n := s']))
  {
    var s := c.sites[n];
    var c' := Cluster(c.sites[n := s'], c.log + []);
    assert SiteOk(c, s);
    MergeSummarizes(s.r.localClock, s.past, p.reg.clock, p.past);
    MergeIsJoin(s.r.localClock, p.reg.clock, n);
    forall m | m in c'.sites ensures Get(s'.r.localClock, m) <= Own(c', m) {
      MergeIsJoin(s.r.localClock, p.reg.clock, m);
      assert Get(s.r.localClock, m) <= Own(c, m) && Get(p.reg.clock, m) <= Own(c, m);
    }
    EntriesOk(s.r, s'.r, p.reg);
    ReplaceSite(c, n, s', []);
    assert c' == c.(sites := c.sites[n := s']);
  }

  lemma {:induction false} DropCausal(c: Cluster, n: Node, s': Site)
    requires Causal(c) && n in c.sites
    requires s'.r.localClock == c.sites[n].r.localClock && s'.past == c.sites[n].past
    requires forall name :: name in s'.r.registrations ==>
      name in c.sites[n].r.registrations && s'.r.registrations[name] == c.sites[n].r.registrations[name]
    ensures Causal(c.(sites := c.sites[n := s']))
  {
    var c' := Cluster(c.sites[n := s'], c.log + []);
    var s := c.sites[n];
    assert SiteOk(c, s);
    assert Grows(c, c');
    KnowsGrows(c, c', s.r.localClock);
    forall name | name in s'.r.registrations ensures EntryOk(s'.r, name) {
      assert EntryOk(s.r, name);
    }
    ReplaceSite(c, n, s', []);
    assert c' == c.(sites := c.sites[n := s']);
  }

  lemma {:induction false} StepCausal(c: Cluster, step: Step)
    requires Causal(c) && Enabled(c, step)
    ensures Causal(Next(c, step))
  {
    var n := step.n;
    var s := c.sites[n];
    match step
    case Registers(_, name, actor, now) =>
      var reg := Registered(s.r, n, name, n, actor, now);
      PublishCausal(c, n, Site(Register(s.r, n, name, n, actor, now), Ticked(s, n), s.seen + {reg}), false, reg);
    case Unregisters(_, name) =>
      PublishCausal(c, n, Site(Unregister(s.r, n, name), Ticked(s, n), s.seen), true, Unregistered(s.r, n, name));
    case Receives(_, i) =>
      assert LogOk(c, c.log[i]);
      if Takes(s.r, c.log[i]) {
        AcceptCausal(c, n, c.log[i], Receive(s, c.log[i]));
      } else {
        DropCausal(c, n, Receive(s, c.log[i]));
      }
    case SeesLeave(_, gone) => DropCausal(c, n, s.(r := OnPeerLeave(s.r, gone)));
  }

  lemma {:induction false} ReachesCausal(c: Cluster, steps: seq<Step>, c': Cluster)
    requires Causal(c) && Reaches(c, steps, c')
    ensures Causal(c')
    decreases |steps|
  {
    if steps != [] {
      StepCausal(c, steps[0]);
      ReachesCausal(Next(c, steps[0]), steps[1..], c');
    }
  }

  /// Vector clocks are causal pasts over every run, removals and departures included: entry m of a node's
  /// clock is k exactly when the node's past holds ticks 1..k of m, so comparing the clocks of two nodes
  /// compares their pasts, and nobody knows more ticks of a node than the node itself.
  lemma {:induction false} ClocksArePasts(nodes: set<Node>, steps: seq<Step>, c: Cluster, n: Node, m: Node)
    requires Reaches(Start(nodes), steps, c) && n in c.sites && m in c.sites
    ensures forall t :: t in c.sites[n].past <==> 1 <= t.k <= Get(c.sites[n].r.localClock, t.node)
    ensures Compare(c.sites[n].r.localClock, c.sites[m].r.localClock) == After <==> c.sites[m].past < c.sites[n].past
    ensures Get(c.sites[m].r.localClock, n) <= Get(c.sites[n].r.localClock, n)
  {
    ReachesCausal(Start(nodes), steps, c);
    assert SiteOk(c, c.sites[n]) && SiteOk(c, c.sites[m]);
    assert Get(c.sites[m].r.localClock, n) <= Own(c, n);
    CompareComparesPasts(c.sites[n].r.localClock, c.sites[n].past, c.sites[m].r.localClock, c.sites[m].past);
  }

  lemma {:induction false} IncrementComesAfter(c: Clock, local: Clock, n: Node)
    requires Leq(c, local)
    ensures Compare(Increment(local, n), c) == After
  {
    var next := Increment(local, n);
    assert Leq(local, next);
    LeqTransitive(c, local, next);
    assert Get(c, n) <= Get(local, n) < Get(next, n);
  }

  ghost predicate SameEntry(c: Cluster, m: Node, n: Node, name: Name)
    requires m in c.sites && n in c.sites
  {
    && name in c.sites[m].r.registrations && name in c.sites[n].r.registrations
    && c.sites[m].r.registrations[name] == c.sites[n].r.registrations[name]
  }

  /// Registering over, or removing, an entry always publishes a clock strictly after the entry's, so every
  /// replica that stores the same entry accepts the update.
  lemma {:induction false} ReplacementsComeAfter(nodes: set<Node>, steps: seq<Step>, c: Cluster, n: Node, name: Name, actor: nat, now: int)
    requires Reaches(Start(nodes), steps, c) && n in c.sites && name in c.sites[n].r.registrations
    ensures var r := c.sites[n].r;
      && Compare(Registered(r, n, name, n, actor, now).clock, r.registrations[name].clock) == After
      && Compare(Unregistered(r, n, name).clock, r.registrations[name].clock) == After
    ensures forall m :: m in c.sites && SameEntry(c, m, n, name) ==>
      && Accepts(c.sites[m].r, Registered(c.sites[n].r, n, name, n, actor, now))
      && AcceptsRemoval(c.sites[m].r, Unregistered(c.sites[n].r, n, name))
  {
    ReachesCausal(Start(nodes), steps, c);
    var r := c.sites[n].r;
    assert SiteOk(c, c.sites[n]) && EntryOk(r, name);
    IncrementComesAfter(r.registrations[name].clock, r.localClock, n);
  }
}

/// Convergence of register-only runs.
module RegistryConvergence {
  import opened Basics
  import opened VectorClock
  import opened Registry
  import opened RegistryCluster

  ghost predicate OnlyRegisters(steps: seq<Step>) {
    forall s :: s in steps ==> s.Registers? || s.Receives?
  }

  ghost predicate GenerationFollows(a: Registration, b: Registration) {
    a.name == b.name && Compare(a.clock, b.clock) == After ==> a.generation > b.generation
  }

  /// Wall clocks agree with causality: a registration made in knowledge of another one of the same name
  /// has a later generation.
  ghost predicate ClocksAgree(log: seq<Publication>) {
    forall i, j :: 0 <= i < |log| && 0 <= j < |log| ==> GenerationFollows(log[i].reg, log[j].reg)
  }

  ghost predicate InLog(log: seq<Publication>, reg: Registration) {
    exists i :: 0 <= i < |log| && log[i].reg == reg
  }

  /// Everything published registers its author's own actor, and one author's clocks only rise.
  ghost predicate Authored(log: seq<Publication>) {
    && (forall i :: 0 <= i < |log| ==> !log[i].removal && log[i].reg.node == log[i].author)
    && (forall i, j :: 0 <= i < j < |log| && log[i].author == log[j].author ==>
          Compare(log[j].reg.clock, log[i].reg.clock) == After)
  }

  ghost predicate Best(w: Registration, regs: set<Registration>, name: Name) {
    w in regs && w.name == name && forall reg :: reg in regs && reg.name == name && reg != w ==> Outranks(w, reg)
  }

  /// The entry of a name is the (generation, node) maximum of the registrations made or received; there is
  /// no entry exactly when there was no registration.
  ghost predicate EntryIsBest(s: Site, name: Name) {
    if name in s.r.registrations then Best(s.r.registrations[name], s.seen, name)
    else forall reg :: reg in s.seen ==> reg.name != name
  }

  ghost predicate SeesBest(s: Site, log: seq<Publication>) {
    (forall reg :: reg in s.seen ==> InLog(log, reg)) && forall name :: EntryIsBest(s, name)
  }

  ghost predicate Converging(c: Cluster) {
    Causal(c) && Authored(c.log) && forall n :: n in c.sites ==> SeesBest(c.sites[n], c.log)
  }

  /// Of two different published registrations of a name, the one that beats the other outranks it.
  lemma {:induction false} BeatsIsOutranks(log: seq<Publication>, a: Registration, b: Registration)
    requires Authored(log) && ClocksAgree(log) && InLog(log, a) && InLog(log, b) && a.name == b.name && a != b
    ensures Beats(a, b) <==> Outranks(a, b)
    ensures Outranks(a, b) <==> !Outranks(b, a)
  {
    CompareFlips(a.clock, b.clock);
    var i :| 0 <= i < |log| && log[i].reg == a;
    var j :| 0 <= j < |log| && log[j].reg == b;
    assert GenerationFollows(log[i].reg, log[j].reg) && GenerationFollows(log[j].reg, log[i].reg);
    assert log[i].author == log[j].author ==> Compare(a.clock, b.clock) != Concurrent;
  }

  /// One more registration made or received: the entry moves to it exactly when it outranks the old entry.
  lemma {:induction false} SeesOneMore(log: seq<Publication>, s: Site, s': Site, reg: Registration)
    requires SeesBest(s, log) && Authored(log) && ClocksAgree(log) && InLog(log, reg)
    requires s'.seen == s.seen + {reg}
    requires s'.r.registrations == if Accepts(s.r, reg) then s.r.registrations[reg.name := reg] else s.r.registrations
    ensures SeesBest(s', log)
  {
    forall name ensures EntryIsBest(s', name) {
      assert EntryIsBest(s, name);
      if name == reg.name && name in s.r.registrations {
        var e := s.r.registrations[name];
        if e != reg { BeatsIsOutranks(log, reg, e); } else { CompareFlips(reg.clock, reg.clock); }
      }
    }
  }

  lemma {:induction false} SeesBestLater(s: Site, log: seq<Publication>, more: seq<Publication>)
    requires SeesBest(s, log)
    ensures SeesBest(s, log + more)
  {
    forall reg | reg in s.seen ensures InLog(log + more, reg) {
      assert InLog(log, reg);
      var i :| 0 <= i < |log| && log[i].reg == reg;
      assert (log + more)[i].reg == reg;
    }
    assert forall name :: EntryIsBest(s, name);
  }

  lemma {:induction false} AuthorsOneMore(c: Cluster, n: Node, reg: Registration, past: set<Tick>)
    requires Causal(c) && Authored(c.log) && n in c.sites
    requires reg.node == n && reg.clock == Increment(c.sites[n].r.localClock, n)
    ensures Authored(c.log + [Publication(false, reg, n, past)])
  {
    forall i | 0 <= i < |c.log| && c.log[i].author == n ensures Compare(reg.clock, c.log[i].reg.clock) == After {
      assert LogOk(c, c.log[i]);
      IncrementComesAfter(c.log[i].reg.clock, c.sites[n].r.localClock, n);
    }
  }

  lemma {:induction false} OwnRegistrationAccepted(c: Cluster, n: Node, reg: Registration)
    requires Causal(c) && n in c.sites && reg.clock == Increment(c.sites[n].r.localClock, n)
    ensures Accepts(c.sites[n].r, reg)
  {
    var s := c.sites[n];
    if reg.name in s.r.registrations {
      assert SiteOk(c, s) && EntryOk(s.r, reg.name);
      IncrementComesAfter(s.r.registrations[reg.name].clock, s.r.localClock, n);
    }
  }

  lemma {:induction false} RegistersConverges(c: Cluster, step: Step)
    requires Converging(c) && Enabled(c, step) && step.Registers? && ClocksAgree(Next(c, step).log)
    ensures Converging(Next(c, step))
  {
    StepCausal(c, step);
    var n, s, c' := step.n, c.sites[step.n], Next(c, step);
    var reg := Registered(s.r, n, step.name, n, step.actor, step.now);
    var p := Publication(false, reg, n, Ticked(s, n));
    AuthorsOneMore(c, n, reg, p.past);
    OwnRegistrationAccepted(c, n, reg);
    assert c'.log == c.log + [p];
    assert InLog(c'.log, reg) by { assert c'.log[|c.log|].reg == reg; }
    forall m | m in c'.sites ensures SeesBest(c'.sites[m], c'.log) {
      SeesBestLater(c.sites[m], c.log, [p]);
      if m == n { SeesOneMore(c'.log, s, c'.sites[n], reg); }
    }
  }

  lemma {:induction false} ReceivesConverges(c: Cluster, step: Step)
    requires Converging(c) && Enabled(c, step) && step.Receives? && ClocksAgree(c.log)
    ensures Converging(Next(c, step))
  {
    StepCausal(c, step);
    var n, s, c' := step.n, c.sites[step.n], Next(c, step);
    assert InLog(c.log, c.log[step.i].reg);
    forall m | m in c'.sites ensures SeesBest(c'.sites[m], c'.log) {
      if m == n { SeesOneMore(c.log, s, c'.sites[n], c.log[step.i].reg); }
    }
  }

  lemma {:induction false} LogGrows(c: Cluster, steps: seq<Step>, c': Cluster)
    requires Reaches(c, steps, c')
    ensures |c.log| <= |c'.log| && c.log == c'.log[..|c.log|]
    decreases |steps|
  {
    if steps != [] {
      LogGrows(Next(c, steps[0]), steps[1..], c');
      assert c.log == Next(c, steps[0]).log[..|c.log|];
    }
  }

  lemma {:induction false} AgreeOnPrefix(log: seq<Publication>, k: nat)
    requires ClocksAgree(log) && k <= |log|
    ensures ClocksAgree(log[..k])
  {
    var prefix := log[..k];
    forall i, j | 0 <= i < |prefix| && 0 <= j < |prefix| ensures GenerationFollows(prefix[i].reg, prefix[j].reg) {
      assert prefix[i] == log[i] && prefix[j] == log[j];
    }
  }

  lemma {:induction false} ReachesConverging(c: Cluster, steps: seq<Step>, c': Cluster)
    requires Converging(c) && Reaches(c, steps, c') && OnlyRegisters(steps) && ClocksAgree(c'.log)
    ensures Converging(c')
    decreases |steps|
  {
    if steps != [] {
      var next := Next(c, steps[0]);
      assert steps[0] in steps;
      LogGrows(c, steps, c');
      LogGrows(next, steps[1..], c');
      AgreeOnPrefix(c'.log, |c.log|);
      AgreeOnPrefix(c'.log, |next.log|);
      if steps[0].Registers? { RegistersConverges(c, steps[0]); } else { ReceivesConverges(c, steps[0]); }
      ReachesConverging(next, steps[1..], c');
    }
  }

  /// Convergence: over every register-only run in which wall clocks agree with causality, each node's entry
  /// for a name is the best-ranked registration it made or received, whatever the order and repetition of
  /// deliveries; so nodes that saw the same registrations of a name hold the same entry.
  lemma {:induction false} RegistryConverges(nodes: set<Node>, steps: seq<Step>, c: Cluster, n: Node, m: Node, name: Name)
    requires Reaches(Start(nodes), steps, c) && OnlyRegisters(steps) && ClocksAgree(c.log)
    requires n in c.sites && m in c.sites
    ensures EntryIsBest(c.sites[n], name)
    ensures (forall reg: Registration :: reg.name == name ==> (reg in c.sites[n].seen <==> reg in c.sites[m].seen)) ==>
      && (name in c.sites[n].r.registrations <==> name in c.sites[m].r.registrations)
      && (name in c.sites[n].r.registrations ==> SameEntry(c, n, m, name))
  {
    ReachesConverging(Start(nodes), steps, c);
    var s, t := c.sites[n], c.sites[m];
    assert SeesBest(s, c.log) && SeesBest(t, c.log);
    assert EntryIsBest(s, name) && EntryIsBest(t, name);
  }

  /// The agreement of wall clocks is needed: node 2 registers in knowledge of node 1's registration but
  /// with a slower clock, node 3 registers independently in between; nodes 4 and 5 receive all three in
  /// different orders and end with different entries.
  lemma {:induction false} DisagreeingClocksDiverge(name: Name, actor: nat) returns (a: Registration, b: Registration, d: Registration)
    ensures a == Registered(Replica(map[], map[]), 1, name, 1, actor, 30)
    ensures b == Registered(OnRegister(Replica(map[], map[]), a), 2, name, 2, actor, 10)
    ensures d == Registered(Replica(map[], map[]), 3, name, 3, actor, 20)
    ensures Arrive(None, [a, b, d]) == Some(d) && Arrive(None, [d, a, b]) == Some(b)
    ensures forall w :: !Unbeaten(w, {a, b, d})
  {
    a := Registered(Replica(map[], map[]), 1, name, 1, actor, 30);
    b := Registered(OnRegister(Replica(map[], map[]), a), 2, name, 2, actor, 10);
    d := Registered(Replica(map[], map[]), 3, name, 3, actor, 20);
    assert a.clock == map[1 := 1] && b.clock == map[1 := 1, 2 := 1] && d.clock == map[3 := 1];
    assert Compare(b.clock, a.clock) == After by { assert Get(b.clock, 2) > Get(a.clock, 2); }
    assert Compare(d.clock, b.clock) == Concurrent by { assert Get(d.clock, 3) > Get(b.clock, 3) && Get(d.clock, 1) < Get(b.clock, 1); }
    assert Compare(a.clock, d.clock) == Concurrent by { assert Get(a.clock, 1) > Get(d.clock, 1) && Get(a.clock, 3) < Get(d.clock, 3); }
    CompareFlips(a.clock, b.clock);
    CompareFlips(b.clock, d.clock);
    CompareFlips(d.clock, a.clock);
    assert [a, b, d][..2] == [a, b] && [a, b][..1] == [a] && [a][..0] == [];
    assert [d, a, b][..2] == [d, a] && [d, a][..1] == [d] && [d][..0] == [];
    assert Arrive(None, [a]) == Some(a) && Arrive(None, [a, b]) == Some(b);
    assert Arrive(None, [d]) == Some(d) && Arrive(None, [d, a]) == Some(a);
    forall w ensures !Unbeaten(w, {a, b, d}) {
      assert Beats(b, a) && Beats(d, b) && Beats(a, d);
    }
  }

  // ---------------------------------------------------------------------------------------------
  // A run that diverges

  ghost function EntryOf(c: Cluster, n: Node, name: Name): Option<Registration>
    requires n in c.sites
  {
    Entry(c.sites[n].r, name)
  }

  /// `c` has this log, and node `n` got these of its registrations of `name`, in this order, and no others.
  ghost predicate Got(c: Cluster, log: seq<Publication>, n: Node, name: Name, arrivals: seq<Registration>) {
    && c.log == log && n in c.sites && EntryOf(c, n, name) == Arrive(None, arrivals)
    && forall reg :: reg in c.sites[n].seen <==> reg in arrivals
  }

  /// Receiving one more.
  lemma GotOneMore(c: Cluster, n: Node, i: nat, name: Name, arrivals: seq<Registration>)
    requires Got(c, c.log, n, name, arrivals) && i < |c.log| && !c.log[i].removal && c.log[i].reg.name == name
    ensures Enabled(c, Receives(n, i)) && Got(Next(c, Receives(n, i)), c.log, n, name, arrivals + [c.log[i].reg])
    ensures forall m :: m in c.sites && m != n ==> m in Next(c, Receives(n, i)).sites && Next(c, Receives(n, i)).sites[m] == c.sites[m]
  {
    assert (arrivals + [c.log[i].reg])[..|arrivals|] == arrivals;
  }

  /// What other nodes do is nothing to `n`.
  lemma GotStays(c: Cluster, d: Cluster, n: Node, name: Name, arrivals: seq<Registration>)
    requires Got(c, c.log, n, name, arrivals) && d.log == c.log && n in d.sites && d.sites[n] == c.sites[n]
    ensures Got(d, d.log, n, name, arrivals)
  {
  }

  lemma ReachesByOne(c: Cluster, step: Step)
    requires Enabled(c, step)
    ensures Reaches(c, [step], Next(c, step))
  {
    assert [step][1..] == [];
  }

  lemma {:induction false} ReachesOn(c: Cluster, first: seq<Step>, d: Cluster, rest: seq<Step>, e: Cluster)
    requires Reaches(c, first, d) && Reaches(d, rest, e)
    ensures Reaches(c, first + rest, e)
    decreases |first|
  {
    hide Next, Enabled;
    if first == [] {
      assert first + rest == rest;
    } else {
      assert (first + rest)[1..] == first[1..] + rest;
      ReachesOn(Next(c, first[0]), first[1..], d, rest, e);
    }
  }

  lemma OneStepMore(c: Cluster, steps: seq<Step>, d: Cluster, step: Step)
    requires Reaches(c, steps, d) && Enabled(d, step)
    ensures Reaches(c, steps + [step], Next(d, step))
  {
    hide Next, Enabled, Reaches;
    ReachesByOne(d, step);
    ReachesOn(c, steps, d, [step], Next(d, step));
  }

  lemma GotThree(c: Cluster, n: Node, name: Name, i: nat, j: nat, k: nat) returns (d: Cluster)
    requires n in c.sites && Got(c, c.log, n, name, []) && i < |c.log| && j < |c.log| && k < |c.log|
    requires forall l :: 0 <= l < |c.log| ==> !c.log[l].removal && c.log[l].reg.name == name
    ensures Got(d, c.log, n, name, [c.log[i].reg, c.log[j].reg, c.log[k].reg])
    ensures Reaches(c, [Receives(n, i), Receives(n, j), Receives(n, k)], d)
    ensures forall m :: m in c.sites && m != n ==> m in d.sites && d.sites[m] == c.sites[m]
  {
    hide Got, Reaches, Enabled;
    var s, t, u := Receives(n, i), Receives(n, j), Receives(n, k);
    var x, y, z := c.log[i].reg, c.log[j].reg, c.log[k].reg;
    GotOneMore(c, n, i, name, []);
    var e := Next(c, s);
    assert [] + [x] == [x] && e.log == c.log;
    GotOneMore(e, n, j, name, [x]);
    var f := Next(e, t);
    assert [x] + [y] == [x, y] && f.log == c.log;
    GotOneMore(f, n, k, name, [x, y]);
    d := Next(f, u);
    assert [x, y] + [z] == [x, y, z];
    hide Next;
    ReachesByOne(c, s);
    OneStepMore(c, [s], e, t);
    OneStepMore(c, [s] + [t], f, u);
    assert [s] + [t] + [u] == [s, t, u];
  }

  /// Node 1 registers, node 2 hears of it and registers with a slower clock, node 3 registers in between.
  ghost function Registrations(name: Name, actor: nat): seq<Step> {
    [Registers(1, name, actor, 30), Receives(2, 0), Registers(2, name, actor, 10), Registers(3, name, actor, 20)]
  }

  ghost predicate Made(c: Cluster, name: Name, regs: seq<Registration>) {
    && |c.log| == |regs|
    && forall l :: 0 <= l < |regs| ==> c.log[l].reg == regs[l] && !c.log[l].removal && regs[l].name == name
  }

  /// One more registration.
  lemma MadeOneMore(c: Cluster, n: Node, name: Name, actor: nat, now: int, regs: seq<Registration>)
    requires Made(c, name, regs) && n in c.sites
    ensures var step := Registers(n, name, actor, now);
      && Enabled(c, step) && Made(Next(c, step), name, regs + [Registered(c.sites[n].r, n, name, n, actor, now)])
      && forall m :: m in c.sites && m != n ==> m in Next(c, step).sites && Next(c, step).sites[m] == c.sites[m]
  {
  }

  lemma ThreeRegister(name: Name, actor: nat, a: Registration, b: Registration, d: Registration) returns (c: Cluster)
    requires a == Registered(Replica(map[], map[]), 1, name, 1, actor, 30)
    requires b == Registered(OnRegister(Replica(map[], map[]), a), 2, name, 2, actor, 10)
    requires d == Registered(Replica(map[], map[]), 3, name, 3, actor, 20)
    ensures Reaches(Start({1, 2, 3, 4, 5}), Registrations(name, actor), c)
    ensures Made(c, name, [a, b, d]) && 4 in c.sites && Got(c, c.log, 4, name, []) && 5 in c.sites && Got(c, c.log, 5, name, [])
  {
    hide Registered, OnRegister, Register, OnUnregister;
    var start := Start({1, 2, 3, 4, 5});
    var empty := Site(Replica(map[], map[]), {}, {});
    var s := Registrations(name, actor);
    MadeOneMore(start, 1, name, actor, 30, []);
    var c1 := Next(start, s[0]);
    var c2 := Next(c1, s[1]);
    assert [] + [a] == [a] && c2.log == c1.log && c2.sites[2].r == OnRegister(Replica(map[], map[]), a);
    MadeOneMore(c2, 2, name, actor, 10, [a]);
    var c3 := Next(c2, s[2]);
    assert [a] + [b] == [a, b] && c3.sites[3] == empty;
    MadeOneMore(c3, 3, name, actor, 20, [a, b]);
    c := Next(c3, s[3]);
    assert [a, b] + [d] == [a, b, d] && c.sites[4] == empty && c.sites[5] == empty;
    hide Next, Enabled, Reaches, Made;
    ReachesByOne(start, s[0]);
    OneStepMore(start, [s[0]], c1, s[1]);
    OneStepMore(start, [s[0]] + [s[1]], c2, s[2]);
    OneStepMore(start, [s[0]] + [s[1]] + [s[2]], c3, s[3]);
    assert [s[0]] + [s[1]] + [s[2]] + [s[3]] == s;
  }

  /// Both nodes get all three, in different orders.
  lemma BothGetAll(name: Name, actor: nat, a: Registration, b: Registration, d: Registration)
      returns (steps: seq<Step>, c: Cluster)
    requires a == Registered(Replica(map[], map[]), 1, name, 1, actor, 30)
    requires b == Registered(OnRegister(Replica(map[], map[]), a), 2, name, 2, actor, 10)
    requires d == Registered(Replica(map[], map[]), 3, name, 3, actor, 20)
    ensures Reaches(Start({1, 2, 3, 4, 5}), steps, c) && OnlyRegisters(steps) && Made(c, name, [a, b, d])
    ensures Got(c, c.log, 4, name, [a, b, d]) && Got(c, c.log, 5, name, [d, a, b])
  {
    hide Registered, OnRegister, Got, Reaches;
    var c1 := ThreeRegister(name, actor, a, b, d);
    var c2 := GotThree(c1, 4, name, 0, 1, 2);
    SameLog(c1, c2, 4, name, [a, b, d]);
    GotStays(c1, c2, 5, name, []);
    c := GotThree(c2, 5, name, 2, 0, 1);
    SameLog(c2, c, 5, name, [d, a, b]);
    GotStays(c2, c, 4, name, [a, b, d]);
    hide Made;
    var four, five := [Receives(4, 0), Receives(4, 1), Receives(4, 2)], [Receives(5, 2), Receives(5, 0), Receives(5, 1)];
    ReachesOn(c1, four, c2, five, c);
    ReachesOn(Start({1, 2, 3, 4, 5}), Registrations(name, actor), c1, four + five, c);
    steps := Registrations(name, actor) + (four + five);
  }

  lemma SameLog(c: Cluster, d: Cluster, n: Node, name: Name, arrivals: seq<Registration>)
    requires Got(d, c.log, n, name, arrivals)
    ensures d.log == c.log && n in d.sites
  {
  }

  /// In one run of registrations and deliveries from the start of a cluster, two nodes that got the same three
  /// registrations of a name, which are all that were made, end with different entries for it.
  lemma NodesDiverge(name: Name, actor: nat) returns (steps: seq<Step>, c: Cluster)
    ensures Reaches(Start({1, 2, 3, 4, 5}), steps, c) && OnlyRegisters(steps) && 4 in c.sites && 5 in c.sites
    ensures forall reg :: reg in c.sites[4].seen <==> reg in c.sites[5].seen
    ensures forall i :: 0 <= i < |c.log| ==> c.log[i].reg in c.sites[4].seen
    ensures EntryOf(c, 4, name).Some? && EntryOf(c, 5, name).Some? && EntryOf(c, 4, name) != EntryOf(c, 5, name)
  {
    var a, b, d := DisagreeingClocksDiverge(name, actor);
    steps, c := BothGetAll(name, actor, a, b, d);
    assert b.generation != d.generation;
    hide Reaches, Registered, OnRegister, Arrive, Unbeaten, Beats;
    assert forall x :: x in [a, b, d] <==> x in [d, a, b];
  }
}
