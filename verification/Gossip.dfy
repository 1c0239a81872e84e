/// Cluster membership by gossip: every node publishes its own state, and passes on what it knows of the others.

module Gossip {
  type Id = nat

  /// A node's own account of itself. Restarting raises the generation; each publication raises the heartbeat.
  datatype State = State(generation: int, heartbeat: int, leaving: bool)

  datatype Peer = Peer(id: Id, state: State, lastUpdated: int)

  type Table = map<Id, Peer>

  datatype Event = Joined(id: Id) | Updated(id: Id) | Left(id: Id)

  predicate Older(a: State, b: State) {
    a.generation < b.generation || (a.generation == b.generation && a.heartbeat < b.heartbeat)
  }

  /// What a node makes of one entry of a message.
  function Merged(t: Table, p: Peer, now: int): Table {
    if p.id !in t then (if p.state.leaving then t else t[p.id := p.(lastUpdated := now)])
    else if Older(t[p.id].state, p.state) then t[p.id := p.(lastUpdated := now)]
    else t
  }

  function Told(t: Table, p: Peer): seq<Event> {
    if p.id !in t then (if p.state.leaving then [] else [Joined(p.id)])
    else if !Older(t[p.id].state, p.state) then []
    else if t[p.id].state.generation == p.state.generation && !t[p.id].state.leaving && p.state.leaving then [Left(p.id)]
    else [Updated(p.id)]
  }

  function MergedAll(t: Table, ps: seq<Peer>, now: int): Table {
    if ps == [] then t else Merged(MergedAll(t, ps[..|ps| - 1], now), ps[|ps| - 1], now)
  }

  function ToldAll(t: Table, ps: seq<Peer>, now: int): seq<Event> {
    if ps == [] then []
    else ToldAll(t, ps[..|ps| - 1], now) + Told(MergedAll(t, ps[..|ps| - 1], now), ps[|ps| - 1])
  }

  /// Whatever a message says of a peer that is known or has not left, the table afterwards has nothing older.
  lemma {:induction false} NothingOlderIsKept(t: Table, ps: seq<Peer>, now: int, i: nat)
    requires i < |ps| && (ps[i].id in t || !ps[i].state.leaving)
    ensures var u := MergedAll(t, ps, now); ps[i].id in u && !Older(u[ps[i].id].state, ps[i].state)
  {
    var n := |ps| - 1;
    if i < n {
      NothingOlderIsKept(t, ps[..n], now, i);
    } else if ps[i].id in t {
      KnownStaysKnown(t, ps[..n], now, ps[i].id);
    }
  }

  lemma {:induction false} KnownStaysKnown(t: Table, ps: seq<Peer>, now: int, x: Id)
    requires x in t
    ensures x in MergedAll(t, ps, now)
  {
    if ps != [] { KnownStaysKnown(t, ps[..|ps| - 1], now, x); }
  }

  /// The events of one entry are what it changed in the table: a peer came, left, or otherwise moved on.
  lemma ToldIsWhatChanged(t: Table, p: Peer, now: int, e: Event)
    ensures var u := Merged(t, p, now);
      e in Told(t, p) <==>
        e.id == p.id && p.id in u &&
          match e
          case Joined(_) => p.id !in t
          case Left(x) =>
            x in t && u[x].state.generation == t[x].state.generation && !t[x].state.leaving && u[x].state.leaving
          case Updated(x) =>
            x in t && u[x].state != t[x].state
            && !(u[x].state.generation == t[x].state.generation && !t[x].state.leaving && u[x].state.leaving)
    ensures |Told(t, p)| <= 1
  {
  }

  predicate Expired(p: Peer, now: int, timeout: int) { now - p.lastUpdated > timeout }

  function Swept(t: Table, self: Id, now: int, timeout: int): Table {
    map x | x in t && (x == self || !Expired(t[x], now, timeout)) :: t[x]
  }

  // ---------------------------------------------------------------------------------------------
  // The cluster

  /// A node: its own state, what it knows, and all it ever published, over all its generations.
  datatype Node = Node(own: State, table: Table, published: seq<State>)

  /// Messages may be lost, repeated, delayed and reordered: all that were ever sent can still arrive.
  datatype Cluster = Cluster(nodes: map<Id, Node>, messages: seq<seq<Peer>>)

  datatype Op =
    | Tick(n: Id, now: int)
    | Leave(n: Id, now: int)
    | Send(n: Id, ps: seq<Peer>)
    | Receive(n: Id, k: nat, now: int)
    | Sweep(n: Id, now: int, timeout: int)
    | Restart(n: Id, generation: int, now: int)

  /// A node that starts is alive, knows itself, and has that entry to pass on.
  function Started(n: Id, generation: int, now: int, published: seq<State>): Node {
    var own := State(generation, 0, false);
    Node(own, map[n := Peer(n, own, now)], published + [own])
  }

  /// A cluster whose nodes have just started, with their generations.
  function Start(generations: map<Id, int>, now: int): Cluster {
    Cluster(map n | n in generations :: Started(n, generations[n], now, []), [])
  }

  /// A node publishes its next heartbeat.
  function Published(n: Id, v: Node, leaving: bool, now: int): Node {
    var own := State(v.own.generation, v.own.heartbeat + 1, leaving);
    Node(own, v.table[n := Peer(n, own, now)], v.published + [own])
  }

  predicate FromTable(t: Table, ps: seq<Peer>) { forall i :: 0 <= i < |ps| ==> ps[i].id in t && t[ps[i].id] == ps[i] }

  function StepNode(c: Cluster, n: Id, v: Node, op: Op): Node {
    match op
    case Tick(_, now) => Published(n, v, v.own.leaving, now)
    case Leave(_, now) => if v.own.leaving then v else Published(n, v, true, now)
    case Send(_, _) => v
    case Receive(_, k, now) => if k < |c.messages| then v.(table := MergedAll(v.table, c.messages[k], now)) else v
    case Sweep(_, now, timeout) => v.(table := Swept(v.table, n, now, timeout))
    case Restart(_, g, now) => if g > v.own.generation then Started(n, g, now, v.published) else v
  }

  function Step(c: Cluster, op: Op): Cluster {
    if op.n !in c.nodes then c
    else
      var sent := if op.Send? && FromTable(c.nodes[op.n].table, op.ps) then [op.ps] else [];
      Cluster(c.nodes[op.n := StepNode(c, op.n, c.nodes[op.n], op)], c.messages + sent)
  }

  function Run(c: Cluster, ops: seq<Op>): Cluster
    decreases |ops|
  {
    if ops == [] then c else Run(Step(c, ops[0]), ops[1..])
  }

  // ---------------------------------------------------------------------------------------------
  // Nobody invents state

  /// Publications grow, and leaving is for the rest of the generation.
  ghost predicate Growing(s: seq<State>) {
    forall i, j :: 0 <= i < j < |s| ==> Older(s[i], s[j]) && (s[i].generation == s[j].generation && s[i].leaving ==> s[j].leaving)
  }

  ghost predicate UpTo(s: seq<State>, own: State) {
    forall i :: 0 <= i < |s| ==>
      && (Older(s[i], own) || s[i] == own)
      && (s[i].generation == own.generation && s[i].leaving ==> own.leaving)
  }

  /// An entry for `x` is something `x` published.
  predicate Genuine(nodes: map<Id, Node>, p: Peer) { p.id in nodes && p.state in nodes[p.id].published }

  ghost predicate TableOk(nodes: map<Id, Node>, t: Table) { forall x :: x in t ==> t[x].id == x && Genuine(nodes, t[x]) }

  /// One entry for each node, as in a table.
  ghost predicate Uniform(ps: seq<Peer>) {
    forall i, j :: 0 <= i < |ps| && 0 <= j < |ps| && ps[i].id == ps[j].id ==> ps[i] == ps[j]
  }

  ghost predicate MessageOk(nodes: map<Id, Node>, ps: seq<Peer>) {
    Uniform(ps) && forall i :: 0 <= i < |ps| ==> Genuine(nodes, ps[i])
  }

  /// A node's own entry is its own state.
  ghost predicate KnowsItself(n: Id, v: Node) { n in v.table && v.table[n].state == v.own }

  ghost predicate NodeOk(nodes: map<Id, Node>, n: Id, v: Node) {
    Growing(v.published) && UpTo(v.published, v.own) && KnowsItself(n, v) && TableOk(nodes, v.table)
  }

  ghost predicate Valid(c: Cluster) {
    && (forall n {:trigger NodeOk(c.nodes, n, c.nodes[n])} :: n in c.nodes ==> NodeOk(c.nodes, n, c.nodes[n]))
    && (forall k {:trigger MessageOk(c.nodes, c.messages[k])} :: 0 <= k < |c.messages| ==> MessageOk(c.nodes, c.messages[k]))
  }

  lemma {:induction false} MergedAllOk(nodes: map<Id, Node>, t: Table, ps: seq<Peer>, now: int)
    requires TableOk(nodes, t) && forall i :: 0 <= i < |ps| ==> Genuine(nodes, ps[i])
    ensures TableOk(nodes, MergedAll(t, ps, now))
  {
    if ps != [] { MergedAllOk(nodes, t, ps[..|ps| - 1], now); }
  }

  /// More has been published.
  ghost predicate Extends(old_: map<Id, Node>, new_: map<Id, Node>) {
    forall n :: n in old_ ==> n in new_ && old_[n].published <= new_[n].published
  }

  lemma StillGenuine(old_: map<Id, Node>, new_: map<Id, Node>, p: Peer)
    requires Extends(old_, new_) && Genuine(old_, p)
    ensures Genuine(new_, p)
  {
  }

  lemma TableStillOk(old_: map<Id, Node>, new_: map<Id, Node>, t: Table)
    requires Extends(old_, new_) && TableOk(old_, t)
    ensures TableOk(new_, t)
  {
    hide Extends, Genuine;
    forall x | x in t ensures Genuine(new_, t[x]) { StillGenuine(old_, new_, t[x]); }
  }

  lemma MessageStillOk(old_: map<Id, Node>, new_: map<Id, Node>, ps: seq<Peer>)
    requires Extends(old_, new_) && MessageOk(old_, ps)
    ensures MessageOk(new_, ps)
  {
    hide Extends, Genuine, Uniform;
    forall i | 0 <= i < |ps| ensures Genuine(new_, ps[i]) { StillGenuine(old_, new_, ps[i]); }
  }

  lemma StartIsValid(generations: map<Id, int>, now: int)
    ensures Valid(Start(generations, now))
  {
    var c := Start(generations, now);
    forall n | n in c.nodes ensures NodeOk(c.nodes, n, c.nodes[n]) {
      assert c.nodes[n].published == [c.nodes[n].own];
    }
  }

  /// The next thing published is newer than all before.
  lemma AppendGrows(s: seq<State>, own: State, next: State)
    requires Growing(s) && UpTo(s, own) && Older(own, next)
    requires own.generation == next.generation && own.leaving ==> next.leaving
    ensures Growing(s + [next]) && UpTo(s + [next], next)
  {
  }

  lemma {:induction false} StillKnowsItself(nodes: map<Id, Node>, n: Id, t: Table, ps: seq<Peer>, now: int)
    requires n in nodes && UpTo(nodes[n].published, nodes[n].own) && forall i :: 0 <= i < |ps| ==> Genuine(nodes, ps[i])
    requires n in t && t[n].state == nodes[n].own
    ensures n in MergedAll(t, ps, now) && MergedAll(t, ps, now)[n].state == nodes[n].own
  {
    if ps != [] {
      StillKnowsItself(nodes, n, t, ps[..|ps| - 1], now);
      assert Genuine(nodes, ps[|ps| - 1]);
    }
  }

  /// What a step does to what a node says of itself.
  lemma StepHistory(c: Cluster, op: Op)
    requires Valid(c) && op.n in c.nodes
    ensures var v, w := c.nodes[op.n], Step(c, op).nodes[op.n];
      v.published <= w.published && Growing(w.published) && UpTo(w.published, w.own)
  {
    var v := c.nodes[op.n];
    assert NodeOk(c.nodes, op.n, v);
    hide Valid, TableOk;
    match op
    case Tick(n, now) => AppendGrows(v.published, v.own, State(v.own.generation, v.own.heartbeat + 1, v.own.leaving));
    case Leave(n, now) => AppendGrows(v.published, v.own, State(v.own.generation, v.own.heartbeat + 1, true));
    case Restart(n, g, now) => if g > v.own.generation { AppendGrows(v.published, v.own, State(g, 0, false)); }
    case _ =>
  }

  lemma StepExtends(c: Cluster, op: Op)
    requires Valid(c)
    ensures Extends(c.nodes, Step(c, op).nodes)
  {
    if op.n in c.nodes { StepHistory(c, op); }
    hide Valid, Growing, UpTo, StepNode;
  }

  lemma NewEntryOk(old_: map<Id, Node>, n: Id, w: Node, t: Table)
    requires n in old_ && Extends(old_, old_[n := w]) && TableOk(old_, t)
    requires n in w.table && w.table[n].id == n && w.table[n].state == w.own && w.own in w.published
    requires forall x :: x in w.table && x != n ==> x in t && w.table[x] == t[x]
    ensures TableOk(old_[n := w], w.table) && KnowsItself(n, w)
  {
    TableStillOk(old_, old_[n := w], t);
  }

  lemma StepTable(c: Cluster, op: Op)
    requires Valid(c) && op.n in c.nodes
    ensures var d := Step(c, op).nodes; TableOk(d, d[op.n].table) && KnowsItself(op.n, d[op.n])
  {
    var n, v, w := op.n, c.nodes[op.n], StepNode(c, op.n, c.nodes[op.n], op);
    assert NodeOk(c.nodes, n, v);
    StepExtends(c, op);
    assert Step(c, op).nodes == c.nodes[n := w];
    if op.Receive? && op.k < |c.messages| {
      assert MessageOk(c.nodes, c.messages[op.k]);
      hide Valid, Growing, Extends, Uniform;
      MergedAllOk(c.nodes, v.table, c.messages[op.k], op.now);
      StillKnowsItself(c.nodes, n, v.table, c.messages[op.k], op.now);
      TableStillOk(c.nodes, c.nodes[n := w], w.table);
    } else if op.Sweep? || w == v {
      hide Valid, Growing, Extends;
      TableStillOk(c.nodes, c.nodes[n := w], v.table);
    } else {
      hide Valid, Growing, Extends, TableOk, KnowsItself;
      NewEntryOk(c.nodes, n, w, v.table);
    }
  }

  lemma StepValid(c: Cluster, op: Op)
    requires Valid(c)
    ensures Valid(Step(c, op))
  {
    if op.n in c.nodes {
      var d := Step(c, op);
      StepHistory(c, op);
      StepTable(c, op);
      StepExtends(c, op);
      forall n | n in d.nodes ensures NodeOk(d.nodes, n, d.nodes[n]) {
        if n != op.n { OthersStillOk(c, op, n); }
      }
      forall k | 0 <= k < |d.messages| ensures MessageOk(d.nodes, d.messages[k]) { MessagesStillOk(c, op, k); }
    }
  }

  lemma OthersStillOk(c: Cluster, op: Op, n: Id)
    requires Valid(c) && op.n in c.nodes && n in c.nodes && n != op.n
    ensures NodeOk(Step(c, op).nodes, n, Step(c, op).nodes[n])
  {
    assert NodeOk(c.nodes, n, c.nodes[n]);
    StepExtends(c, op);
    hide Valid, Growing, UpTo, TableOk, Extends, StepNode;
    TableStillOk(c.nodes, Step(c, op).nodes, c.nodes[n].table);
  }

  lemma MessagesStillOk(c: Cluster, op: Op, k: nat)
    requires Valid(c) && op.n in c.nodes && k < |Step(c, op).messages|
    ensures MessageOk(Step(c, op).nodes, Step(c, op).messages[k])
  {
    var ps := Step(c, op).messages[k];
    StepExtends(c, op);
    assert NodeOk(c.nodes, op.n, c.nodes[op.n]);
    assert k < |c.messages| ==> MessageOk(c.nodes, c.messages[k]);
    hide Valid, Growing, UpTo, Extends, StepNode;
    MessageStillOk(c.nodes, Step(c, op).nodes, ps);
  }

  /// In every reachable state, what one node knows of another is a state that the other published, never newer
  /// than what it is now; and so is what is in the messages.
  lemma {:induction false} NobodyInvents(c: Cluster, ops: seq<Op>)
    requires Valid(c)
    ensures Valid(Run(c, ops))
    ensures forall n, x :: n in Run(c, ops).nodes && x in Run(c, ops).nodes[n].table ==> Vouched(Run(c, ops), n, x)
    decreases |ops|
  {
    if ops == [] {
      forall n, x | n in c.nodes && x in c.nodes[n].table ensures Vouched(c, n, x) {
        assert NodeOk(c.nodes, n, c.nodes[n]);
        assert Genuine(c.nodes, c.nodes[n].table[x]);
        assert NodeOk(c.nodes, x, c.nodes[x]);
      }
    } else {
      StepValid(c, ops[0]);
      NobodyInvents(Step(c, ops[0]), ops[1..]);
    }
  }

  /// What `n` knows of `x` was published by `x`, and `x` is now at least as new.
  ghost predicate Vouched(c: Cluster, n: Id, x: Id)
    requires n in c.nodes && x in c.nodes[n].table
  {
    var p := c.nodes[n].table[x];
    p.id == x && x in c.nodes && p.state in c.nodes[x].published && !Older(c.nodes[x].own, p.state)
  }

  // ---------------------------------------------------------------------------------------------
  // Knowledge grows

  ghost predicate NotOlder(a: State, b: State) { a == b || Older(a, b) }

  lemma {:induction false} MergedAllGrows(t: Table, ps: seq<Peer>, now: int, x: Id)
    requires x in t
    ensures x in MergedAll(t, ps, now) && NotOlder(t[x].state, MergedAll(t, ps, now)[x].state)
  {
    if ps != [] { MergedAllGrows(t, ps[..|ps| - 1], now, x); }
  }

  /// A step that keeps an entry keeps it as it is or makes it newer.
  lemma StepGrows(c: Cluster, op: Op, n: Id, x: Id)
    requires Valid(c) && n in c.nodes && x in c.nodes[n].table
    ensures n in Step(c, op).nodes
    ensures x in Step(c, op).nodes[n].table ==> NotOlder(c.nodes[n].table[x].state, Step(c, op).nodes[n].table[x].state)
  {
    if op.n == n {
      assert NodeOk(c.nodes, n, c.nodes[n]);
      hide Valid, TableOk, Growing, UpTo;
      if op.Receive? && op.k < |c.messages| { MergedAllGrows(c.nodes[n].table, c.messages[op.k], op.now, x); }
    }
  }

  /// `n` keeps an entry for `x` throughout.
  predicate Keeps(c: Cluster, ops: seq<Op>, n: Id, x: Id)
    decreases |ops|
  {
    n in c.nodes && x in c.nodes[n].table && (ops == [] || Keeps(Step(c, ops[0]), ops[1..], n, x))
  }

  lemma {:induction false} KnowledgeGrows(c: Cluster, ops: seq<Op>, n: Id, x: Id)
    requires Valid(c) && Keeps(c, ops, n, x)
    ensures n in Run(c, ops).nodes && x in Run(c, ops).nodes[n].table
    ensures NotOlder(c.nodes[n].table[x].state, Run(c, ops).nodes[n].table[x].state)
    decreases |ops|
  {
    if ops != [] {
      StepValid(c, ops[0]);
      StepGrows(c, ops[0], n, x);
      KnowledgeGrows(Step(c, ops[0]), ops[1..], n, x);
    }
  }

  /// A peer seen leaving is not seen otherwise in the same generation for as long as its entry is kept.
  lemma {:induction false} LeavingIsForGood(c: Cluster, ops: seq<Op>, n: Id, x: Id)
    requires Valid(c) && Keeps(c, ops, n, x) && c.nodes[n].table[x].state.leaving
    ensures n in Run(c, ops).nodes && x in Run(c, ops).nodes[n].table
    ensures var p, q := c.nodes[n].table[x].state, Run(c, ops).nodes[n].table[x].state;
      q.leaving || q.generation > p.generation
  {
    KnowledgeGrows(c, ops, n, x);
    NobodyInvents(c, ops);
    var d := Run(c, ops);
    var p, q := c.nodes[n].table[x].state, d.nodes[n].table[x].state;
    RunExtends(c, ops);
    assert NodeOk(c.nodes, n, c.nodes[n]) && Genuine(c.nodes, c.nodes[n].table[x]);
    assert Vouched(d, n, x) && NodeOk(d.nodes, x, d.nodes[x]);
    var s := d.nodes[x].published;
    var i :| 0 <= i < |s| && s[i] == p;
    var j :| 0 <= j < |s| && s[j] == q;
    if j < i { assert Older(q, p); }
  }

  lemma {:induction false} RunExtends(c: Cluster, ops: seq<Op>)
    requires Valid(c)
    ensures Extends(c.nodes, Run(c, ops).nodes)
    decreases |ops|
  {
    if ops != [] {
      StepValid(c, ops[0]);
      StepExtends(c, ops[0]);
      RunExtends(Step(c, ops[0]), ops[1..]);
    }
  }

  // ---------------------------------------------------------------------------------------------
  // Who left can come back

  /// The guard for an unknown peer: a message makes it known if and only if it has an entry that is not leaving.
  lemma {:induction false} TakenInIff(t: Table, ps: seq<Peer>, now: int, x: Id)
    requires x !in t
    ensures x in MergedAll(t, ps, now) <==> exists i :: 0 <= i < |ps| && ps[i].id == x && !ps[i].state.leaving
  {
    if ps != [] {
      var before, last := ps[..|ps| - 1], ps[|ps| - 1];
      TakenInIff(t, before, now, x);
      if x in MergedAll(t, before, now) {
        var i :| 0 <= i < |before| && before[i].id == x && !before[i].state.leaving;
        assert ps[i] == before[i];
      } else {
        assert forall i :: 0 <= i < |before| ==> before[i] == ps[i];
        if last.id == x && !last.state.leaving { assert ps[|ps| - 1] == last; }
      }
    }
  }

  /// `s` is a state in generation `g` in which the node was not leaving.
  predicate Active(s: State, g: int) { s.generation == g && !s.leaving }

  /// `n` sees `x` as a member in generation `g`.
  predicate Sees(c: Cluster, n: Id, x: Id, g: int) { n in c.nodes && x in c.nodes[n].table && Active(c.nodes[n].table[x].state, g) }

  predicate Carries(ps: seq<Peer>, x: Id, g: int) { exists i :: 0 <= i < |ps| && ps[i].id == x && Active(ps[i].state, g) }

  /// Some message that can still arrive, or somebody's table, has an entry of `x` from before it left.
  ghost predicate Lingers(c: Cluster, x: Id, g: int) {
    || (exists k :: 0 <= k < |c.messages| && Carries(c.messages[k], x, g))
    || (exists m :: Sees(c, m, x, g))
  }

  /// `x` has left in generation `g`.
  ghost predicate HasLeft(c: Cluster, x: Id, g: int) {
    x in c.nodes && c.nodes[x].own.generation >= g && (c.nodes[x].own.generation == g ==> c.nodes[x].own.leaving)
  }

  lemma KnownToHaveLeft(c: Cluster, n: Id, x: Id)
    requires Valid(c) && n in c.nodes && x in c.nodes[n].table && c.nodes[n].table[x].state.leaving
    ensures HasLeft(c, x, c.nodes[n].table[x].state.generation)
  {
    assert NodeOk(c.nodes, n, c.nodes[n]) && Genuine(c.nodes, c.nodes[n].table[x]);
    assert NodeOk(c.nodes, x, c.nodes[x]);
  }

  /// What is merged was in the table or in the message.
  lemma {:induction false} MergedFrom(t: Table, ps: seq<Peer>, now: int, x: Id, g: int)
    requires x in MergedAll(t, ps, now) && Active(MergedAll(t, ps, now)[x].state, g)
    ensures (x in t && Active(t[x].state, g)) || Carries(ps, x, g)
  {
    if ps != [] {
      var before, last := ps[..|ps| - 1], ps[|ps| - 1];
      var u := MergedAll(t, before, now);
      if x in u && Active(u[x].state, g) {
        MergedFrom(t, before, now, x, g);
        if Carries(before, x, g) {
          var i :| 0 <= i < |before| && before[i].id == x && Active(before[i].state, g);
          assert ps[i] == before[i];
        }
      } else {
        assert ps[|ps| - 1] == last;
      }
    }
  }

  /// Once nothing lingers, nothing ever does again.
  lemma StepForgets(c: Cluster, op: Op, x: Id, g: int)
    requires Valid(c) && HasLeft(c, x, g) && !Lingers(c, x, g)
    ensures HasLeft(Step(c, op), x, g) && !Lingers(Step(c, op), x, g)
  {
    if op.n in c.nodes {
      var d := Step(c, op);
      assert !Sees(c, op.n, x, g) && forall k :: 0 <= k < |c.messages| ==> !Carries(c.messages[k], x, g);
      StepUnseen(c, op, x, g);
      StepUnsent(c, op, x, g);
      hide Valid, Carries, StepNode;
      forall m ensures !Sees(d, m, x, g) { assert !Sees(c, m, x, g); }
    }
  }

  lemma StepUnseen(c: Cluster, op: Op, x: Id, g: int)
    requires Valid(c) && HasLeft(c, x, g) && op.n in c.nodes && !Sees(c, op.n, x, g)
    requires forall k :: 0 <= k < |c.messages| ==> !Carries(c.messages[k], x, g)
    ensures !Sees(Step(c, op), op.n, x, g) && HasLeft(Step(c, op), x, g)
  {
    hide Valid, Carries;
    if Sees(Step(c, op), op.n, x, g) && op.Receive? && op.k < |c.messages| {
      MergedFrom(c.nodes[op.n].table, c.messages[op.k], op.now, x, g);
    }
  }

  lemma StepUnsent(c: Cluster, op: Op, x: Id, g: int)
    requires op.n in c.nodes && !Sees(c, op.n, x, g)
    requires forall k :: 0 <= k < |c.messages| ==> !Carries(c.messages[k], x, g)
    ensures forall k :: 0 <= k < |Step(c, op).messages| ==> !Carries(Step(c, op).messages[k], x, g)
  {
    hide StepNode;
  }

  lemma {:induction false} RunForgets(c: Cluster, ops: seq<Op>, x: Id, g: int)
    requires Valid(c) && HasLeft(c, x, g) && !Lingers(c, x, g)
    ensures !Lingers(Run(c, ops), x, g)
    decreases |ops|
  {
    if ops != [] {
      StepForgets(c, ops[0], x, g);
      StepValid(c, ops[0]);
      RunForgets(Step(c, ops[0]), ops[1..], x, g);
    }
  }

  lemma StepStaysLeft(c: Cluster, op: Op, x: Id, g: int)
    requires HasLeft(c, x, g)
    ensures HasLeft(Step(c, op), x, g)
  {
  }

  /// A node that has left does not see itself otherwise.
  lemma {:induction false} NeverSeesItself(c: Cluster, ops: seq<Op>, x: Id, g: int)
    requires Valid(c) && HasLeft(c, x, g)
    ensures !Sees(Run(c, ops), x, x, g)
    decreases |ops|
  {
    if ops == [] {
      assert NodeOk(c.nodes, x, c.nodes[x]);
    } else {
      StepStaysLeft(c, ops[0], x, g);
      StepValid(c, ops[0]);
      NeverSeesItself(Step(c, ops[0]), ops[1..], x, g);
    }
  }

  /// An unknown peer is taken in as the message has it.
  lemma {:induction false} TakenInAs(t: Table, ps: seq<Peer>, now: int, p: Peer)
    requires p.id !in t && forall i :: 0 <= i < |ps| && ps[i].id == p.id ==> ps[i] == p
    ensures p.id in MergedAll(t, ps, now) ==> MergedAll(t, ps, now)[p.id].state == p.state
  {
    if ps != [] {
      assert forall i :: 0 <= i < |ps| - 1 ==> ps[..|ps| - 1][i] == ps[i];
      TakenInAs(t, ps[..|ps| - 1], now, p);
    }
  }

  lemma RunTwo(c: Cluster, a: Op, b: Op)
    ensures Run(c, [a, b]) == Step(Step(c, a), b)
  {
    assert [a, b][1..] == [b] && [b][1..] == [];
    assert Run(Step(c, a), [b]) == Run(Step(Step(c, a), b), []);
  }

  /// Dropped for its silence and heard of from an old message, a peer is back, whatever the timeout.
  lemma OldMessageReturns(c: Cluster, n: Id, x: Id, g: int, k: nat, timeout: int) returns (ops: seq<Op>)
    requires Valid(c) && n in c.nodes && n != x && k < |c.messages| && Carries(c.messages[k], x, g)
    ensures Sees(Run(c, ops), n, x, g)
    ensures exists now :: ops == [Sweep(n, now, timeout), Receive(n, k, now)]
  {
    var t := c.nodes[n].table;
    var now := if x in t then t[x].lastUpdated + timeout + 1 else 0;
    ops := [Sweep(n, now, timeout), Receive(n, k, now)];
    RunTwo(c, ops[0], ops[1]);
    var ps := c.messages[k];
    var i :| 0 <= i < |ps| && ps[i].id == x && Active(ps[i].state, g);
    var swept := Swept(t, n, now, timeout);
    assert MessageOk(c.nodes, ps);
    hide Valid;
    TakenInIff(swept, ps, now, x);
    TakenInAs(swept, ps, now, ps[i]);
    assert Step(c, ops[0]).nodes[n].table == swept;
  }

  lemma LingeringReturns(c: Cluster, n: Id, x: Id, g: int) returns (ops: seq<Op>)
    requires Valid(c) && n in c.nodes && n != x && Lingers(c, x, g)
    ensures Sees(Run(c, ops), n, x, g)
  {
    if k :| 0 <= k < |c.messages| && Carries(c.messages[k], x, g) {
      ops := OldMessageReturns(c, n, x, g, k, 0);
    } else {
      var m :| Sees(c, m, x, g);
      assert NodeOk(c.nodes, m, c.nodes[m]);
      var ps := [c.nodes[m].table[x]];
      var d := Step(c, Send(m, ps));
      assert d.messages[|c.messages|] == ps && ps[0].id == x;
      assert Carries(d.messages[|c.messages|], x, g);
      StepValid(c, Send(m, ps));
      var rest := OldMessageReturns(d, n, x, g, |c.messages|, 0);
      ops := [Send(m, ps)] + rest;
      assert ops[1..] == rest;
    }
  }

  predicate LeadsBack(c: Cluster, ops: seq<Op>, n: Id, x: Id, g: int) { Sees(Run(c, ops), n, x, g) }

  /// The exact condition: a node that knows a peer to have left in this generation can come to see it as a member of
  /// that generation again if and only if the peer is not the node itself and an entry from before it left is still in
  /// some table, or in some message that can still arrive.
  lemma {:induction false} ComesBackIff(c: Cluster, n: Id, x: Id)
    requires Valid(c) && n in c.nodes && x in c.nodes[n].table && c.nodes[n].table[x].state.leaving
    ensures var g := c.nodes[n].table[x].state.generation;
      (exists ops :: LeadsBack(c, ops, n, x, g)) <==> n != x && Lingers(c, x, g)
  {
    var g := c.nodes[n].table[x].state.generation;
    KnownToHaveLeft(c, n, x);
    if n != x && Lingers(c, x, g) {
      var back := LingeringReturns(c, n, x, g);
      assert LeadsBack(c, back, n, x, g);
    } else {
      forall ops ensures !LeadsBack(c, ops, n, x, g) {
        if n == x { NeverSeesItself(c, ops, x, g); } else { NeverAgain(c, ops, n, x, g); }
      }
    }
  }

  lemma NeverAgain(c: Cluster, ops: seq<Op>, n: Id, x: Id, g: int)
    requires Valid(c) && HasLeft(c, x, g) && !Lingers(c, x, g)
    ensures !Sees(Run(c, ops), n, x, g)
  {
    RunForgets(c, ops, x, g);
  }

  // ---------------------------------------------------------------------------------------------
  // The shortest return, from the start of a cluster

  const ALIVE := Peer(0, State(7, 1, false), 1)
  const GONE := Peer(0, State(7, 2, true), 3)

  /// Node 0 publishes, node 1 hears of it, node 0 leaves, and node 1 hears of that.
  function Departure(): seq<Op> {
    [Tick(0, 1), Send(0, [ALIVE]), Receive(1, 0, 2), Leave(0, 3), Send(0, [GONE]), Receive(1, 1, 4)]
  }

  function Return(): seq<Op> { [Sweep(1, 20, 10), Receive(1, 0, 21)] }

  lemma RunStep(c: Cluster, ops: seq<Op>)
    requires ops != []
    ensures Run(c, ops) == Run(Step(c, ops[0]), ops[1..])
  {
  }

  lemma MergedOne(t: Table, p: Peer, now: int)
    ensures MergedAll(t, [p], now) == Merged(t, p, now)
  {
    assert [p][..0] == [];
  }

  /// After the departure node 1 knows that node 0 has left, with the old message still under way.
  lemma DepartureIsKnown(c: Cluster)
    requires c == Start(map[0 := 7, 1 := 5], 0)
    ensures var d := Run(c, Departure());
      && 1 in d.nodes && d.nodes[1].table == map[1 := Peer(1, State(5, 0, false), 0), 0 := GONE.(lastUpdated := 4)]
      && d.messages == [[ALIVE], [GONE]]
  {
    var ops := Departure();
    var c1 := Step(c, ops[0]);
    var c2 := Step(c1, ops[1]);
    var c3 := Step(c2, ops[2]);
    var c4 := Step(c3, ops[3]);
    var c5 := Step(c4, ops[4]);
    MergedOne(c.nodes[1].table, ALIVE, 2);
    MergedOne(c5.nodes[1].table, GONE, 4);
    RunStep(c, ops);
    RunStep(c1, ops[1..]);
    RunStep(c2, ops[2..]);
    RunStep(c3, ops[3..]);
    RunStep(c4, ops[4..]);
    RunStep(c5, ops[5..]);
    assert ops[6..] == [];
  }

  /// A run from a starting cluster in which a peer that has left, and is known to have, is taken back as a member of
  /// the same generation.
  lemma LeftPeerComesBack()
    ensures var c := Run(Start(map[0 := 7, 1 := 5], 0), Departure());
      && Valid(c) && 1 in c.nodes && 0 in c.nodes[1].table && c.nodes[1].table[0].state == GONE.state
      && Sees(Run(c, Return()), 1, 0, 7)
  {
    var start := Start(map[0 := 7, 1 := 5], 0);
    StartIsValid(map[0 := 7, 1 := 5], 0);
    NobodyInvents(start, Departure());
    DepartureIsKnown(start);
    var c := Run(start, Departure());
    RunTwo(c, Return()[0], Return()[1]);
    var t := Swept(c.nodes[1].table, 1, 20, 10);
    assert 0 !in t;
    MergedOne(t, ALIVE, 21);
  }
}
