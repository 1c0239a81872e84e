/// Stopping and restarting actors with children, and the three restart strategies.

module SupervisionClass {
  import opened Basics
  import opened Supervision
  import RI = RestartIntensity

  function Fresh(from: Id, n: nat): (s: seq<Id>)
    ensures |s| == n && forall i :: 0 <= i < n ==> s[i] == from + i
  {
    seq(n, i => from + i)
  }

  /// A new actor under `p`, last among its children.
  function Spawned(t: Tree, p: Id, spec: Spec): Tree
    requires p in t.nodes
  {
    Tree(t.nodes[p := t.nodes[p].(order := t.nodes[p].order + [t.next])][t.next := Node(Some(p), spec, [])], t.next + 1)
  }

  lemma SpawnedValid(t: Tree, p: Id, spec: Spec)
    requires Valid(t) && p in t.nodes
    ensures Valid(Spawned(t, p, spec))
  {
    var u := Spawned(t, p, spec);
    assert NodeOk(t, p);
    forall x | x in u.nodes ensures NodeOk(u, x) {
      if x != t.next {
        assert NodeOk(t, x);
        forall c | c in u.nodes[x].order ensures IsChild(u, c, x) {
          if c in t.nodes[x].order { assert IsChild(t, c, x); }
        }
        forall c | c in t.nodes[x].order ensures c < t.next { assert IsChild(t, c, x) && NodeOk(t, c); }
        if x == p { DistinctAppend(t.nodes[p].order, t.next); }
      }
    }
  }

  lemma StruckOffThenSpawned(t: Tree, p: Id, c: Id)
    requires Valid(t) && IsChild(t, c, p) && p in t.nodes
    ensures p in StruckOff(t.nodes, c) - {c}
    ensures ReplacedAlone(t, Spawned(Tree(StruckOff(t.nodes, c) - {c}, t.next), p, t.nodes[c].spec), p, c)
  {
    AllAreOlder(t);
    hide Valid, NodeOk, Without, Distinct;
  }

  lemma ParentLast(t: Tree, a: Id, stopped: seq<Id>)
    requires a in t.nodes && a < t.next
    ensures stopped + PostOrder(t, a) == (stopped + PostOrders(t, a, 0)) + [a]
  {
    hide PostOrders;
  }

  lemma Same(t: Tree, u: Tree)
    requires t.nodes == u.nodes && t.next == u.next
    ensures t == u
  {
  }

  class ActorTree {
    var nodes: map<Id, Node>
    var next: Id
    var stopped: seq<Id>
    const supervisor: RI.ChildSupervisor<Key>

    function Now(): Tree reads this`nodes, this`next { Tree(nodes, next) }

    ghost function Snap(): Snapshot reads this`nodes, this`next, supervisor { Snapshot(Now(), supervisor.restartCounts) }

    constructor (supervisor: RI.ChildSupervisor<Key>)
      ensures Valid(Now()) && nodes == map[] && stopped == [] && this.supervisor == supervisor
    {
      this.supervisor := supervisor;
      nodes, next, stopped := map[], 0, [];
    }

    method Spawn(spec: Spec) returns (a: Id)
      requires Valid(Now())
      modifies this`nodes, this`next
      ensures Valid(Now()) && a == old(next) && next == old(next) + 1 && nodes == old(nodes)[a := Node(None, spec, [])]
    {
      a := next;
      nodes, next := nodes[a := Node(None, spec, [])], next + 1;
      forall x | x in nodes ensures NodeOk(Now(), x) {
        if x != a {
          assert old(NodeOk(Now(), x));
          forall c | c in nodes[x].order ensures IsChild(Now(), c, x) { assert old(IsChild(Now(), c, x)); }
        }
      }
    }

    method SpawnChild(p: Id, spec: Spec) returns (c: Id)
      requires Valid(Now()) && p in nodes
      modifies this`nodes, this`next
      ensures Valid(Now()) && Now() == Spawned(old(Now()), p, spec) && c == old(next)
    {
      SpawnedValid(Now(), p, spec);
      c := next;
      nodes := nodes[p := nodes[p].(order := nodes[p].order + [c])];
      nodes := nodes[c := Node(Some(p), spec, [])];
      next := next + 1;
    }

    method RemoveFromParent(a: Id)
      requires a in nodes
      modifies this`nodes
      ensures nodes == StruckOff(old(nodes), a)
    {
      if nodes[a].parent.Some? && nodes[a].parent.value in nodes {
        var p := nodes[a].parent.value;
        nodes := nodes[p := nodes[p].(order := Without(nodes[p].order, a))];
      }
    }

    /// Stops an actor and everything below it: the subtree is removed, nothing else is, and its actors end
    /// in post-order.
    method Stop(a: Id)
      requires Valid(Now())
      modifies this`nodes, this`stopped
      ensures Valid(Now())
      ensures a !in old(nodes) ==> Now() == old(Now()) && stopped == old(stopped)
      ensures a in old(nodes) ==>
                Now() == Removed(old(Now()), a) && stopped == old(stopped) + PostOrder(old(Now()), a)
      decreases if a in nodes && a < next then next - a else 0, 0
    {
      if a !in nodes { return; }
      ghost var t := Now();
      assert NodeOk(t, a);
      ParentLast(t, a, stopped);
      hide *;
      StopChildren(a);
      OnlyItselfIsLeft(t, a);
      RemovedValid(t, a);
      RemoveFromParent(a);
      nodes, stopped := nodes - {a}, stopped + [a];
      Same(Now(), Removed(t, a));
    }

    method StopChildren(a: Id)
      requires Valid(Now()) && a in nodes && a < next
      modifies this`nodes, this`stopped
      ensures Now() == Cut(old(Now()), a, SetOf(old(nodes)[a].order), [])
      ensures stopped == old(stopped) + PostOrders(old(Now()), a, 0)
      decreases next - a - 1, 2
    {
      ghost var t := Now();
      var kids := nodes[a].order;
      AllRemain(t, a);
      SetOfNone();
      ghost var gone, left := {}, kids;
      hide SetOf, Valid, NodeOk, Cut, Remaining, PostOrder;
      for i := 0 to |kids|
        invariant Valid(Now()) && Now() == Cut(t, a, gone, left) && Remaining(t, a, gone, left) && next == t.next
        invariant left == kids[i..] && gone == SetOf(kids[..i])
        invariant stopped + PostOrders(t, a, i) == old(stopped) + PostOrders(t, a, 0)
      {
        SetOfEnds(kids, i);
        NextGone(t, a, gone, left);
        StopOne(t, a, gone, left, kids[i]);
        gone, left := gone + {kids[i]}, kids[i + 1..];
      }
      assert kids[..|kids|] == kids;
    }

    /// One child of `p` goes while others of its children may have gone already.
    method StopOne(ghost t: Tree, ghost p: Id, ghost gone: set<Id>, ghost left: seq<Id>, k: Id)
      requires Valid(t) && p in t.nodes && Remaining(t, p, gone, left) && k in left && Now() == Cut(t, p, gone, left)
      modifies this`nodes, this`stopped
      ensures Valid(Now()) && Now() == Cut(t, p, gone + {k}, Without(left, k)) && stopped == old(stopped) + PostOrder(t, k)
      decreases next - p - 1, 1
    {
      CutValid(t, p, gone, left);
      CutStep(t, p, gone, left, k);
      assert IsChild(t, k, p);
      hide Valid, NodeOk, Cut, Remaining, Removed, PostOrder;
      Stop(k);
    }

    /// Stops the children of `p` from position `from` on, youngest first.
    method StopFrom(p: Id, from: nat)
      requires Valid(Now()) && p in nodes && from <= |nodes[p].order|
      modifies this`nodes, this`stopped
      ensures Valid(Now()) && Now() == Cut(old(Now()), p, SetOf(old(nodes)[p].order[from..]), old(nodes)[p].order[..from])
      ensures stopped == old(stopped) + BackOrders(old(Now()), p, from, |old(nodes)[p].order|)
    {
      ghost var t := Now();
      var kids := nodes[p].order;
      var i := |kids|;
      AllRemain(t, p);
      SetOfNone();
      ghost var gone, left := {}, kids;
      hide SetOf, Valid, NodeOk, Cut, Remaining, PostOrder, BackOrders;
      while i > from
        invariant from <= i <= |kids|
        invariant Valid(Now()) && Now() == Cut(t, p, gone, left) && Remaining(t, p, gone, left)
        invariant left == kids[..i] && gone == SetOf(kids[i..])
        invariant stopped + BackOrders(t, p, from, i) == old(stopped) + BackOrders(t, p, from, |kids|)
      {
        i := i - 1;
        SetOfEnds(kids, i);
        LastGone(t, p, gone, left, i);
        LastOfBackOrders(t, p, from, i, stopped);
        Shorter(kids, left, i);
        StopOne(t, p, gone, left, kids[i]);
        gone, left := gone + {kids[i]}, kids[..i];
      }
      NoBackOrders(t, p, from);
    }

    /// Starts children of `p` in order.
    method SpawnAll(p: Id, specs: seq<Spec>)
      requires Valid(Now()) && p in nodes
      modifies this`nodes, this`next
      ensures Valid(Now()) && Grown(old(Now()), Now(), p, specs)
    {
      ghost var t := Now();
      NothingGrown(t, p);
      Prefixes(specs);
      hide *;
      for i := 0 to |specs|
        invariant Valid(Now()) && Grown(t, Now(), p, specs[..i])
      {
        SpawnNext(t, specs[..i], p, specs[i]);
      }
    }

    method SpawnNext(ghost t: Tree, ghost before: seq<Spec>, p: Id, spec: Spec)
      requires Valid(t) && Valid(Now()) && Grown(t, Now(), p, before)
      modifies this`nodes, this`next
      ensures Valid(Now()) && Grown(t, Now(), p, before + [spec])
    {
      GrowsByOne(t, Now(), p, before, spec);
      hide Valid, Grown, Spawned;
      var _ := SpawnChild(p, spec);
    }

    method RestartFrom(p: Id, from: nat)
      requires Valid(Now()) && p in nodes && from <= |nodes[p].order|
      modifies this
      ensures Valid(Now()) && Restarted(old(Now()), Now(), p, from)
      ensures stopped == old(stopped) + BackOrders(old(Now()), p, from, |old(nodes)[p].order|)
    {
      ghost var t := Now();
      var specs := SpecsFrom(p, from);
      StopFrom(p, from);
      KeepsTheParent(t, p, from);
      SpawnAll(p, specs);
      RestartedFrom(t, Now(), p, from, specs);
    }

    /// Collected before anything is stopped, since stopping deletes them.
    method SpecsFrom(p: Id, from: nat) returns (specs: seq<Spec>)
      requires Valid(Now()) && p in nodes && from <= |nodes[p].order|
      ensures SpecsOf(Now(), p, from, specs)
    {
      specs := [];
      var kids := nodes[p].order;
      assert NodeOk(Now(), p);
      for j := from to |kids|
        invariant |specs| == j - from
        invariant forall i :: from <= i < j ==> kids[i] in nodes && specs[i - from] == nodes[kids[i]].spec
      {
        assert IsChild(Now(), kids[j], p);
        specs := specs + [nodes[kids[j]].spec];
      }
    }

    method PositionOf(p: Id, a: Id) returns (i: int)
      requires p in nodes
      ensures -1 <= i < |nodes[p].order| && (i == -1 <==> a !in nodes[p].order)
      ensures i >= 0 ==> nodes[p].order[i] == a && a !in nodes[p].order[..i]
    {
      i := 0;
      while i < |nodes[p].order|
        invariant 0 <= i <= |nodes[p].order| && a !in nodes[p].order[..i]
      {
        if nodes[p].order[i] == a { return; }
        i := i + 1;
      }
      i := -1;
    }

    method OneForAll(p: Id)
      requires Valid(Now()) && p in nodes
      modifies this
      ensures Valid(Now()) && Restarted(old(Now()), Now(), p, 0)
      ensures stopped == old(stopped) + BackOrders(old(Now()), p, 0, |old(nodes)[p].order|)
    {
      RestartFrom(p, 0);
    }

    method RestForOne(p: Id, crashed: Id)
      requires Valid(Now()) && p in nodes
      modifies this
      ensures Valid(Now())
      ensures crashed !in old(nodes)[p].order ==> Now() == old(Now()) && stopped == old(stopped)
      ensures forall i :: 0 <= i < |old(nodes)[p].order| && old(nodes)[p].order[i] == crashed ==>
                Restarted(old(Now()), Now(), p, i) && stopped == old(stopped) + BackOrders(old(Now()), p, i, |old(nodes)[p].order|)
    {
      var i := PositionOf(p, crashed);
      if i == -1 { return; }
      assert NodeOk(Now(), p);
      DistinctAt(nodes[p].order, i);
      assert forall j :: i < j < |nodes[p].order| ==> nodes[p].order[j] in nodes[p].order[i + 1..];
      hide Valid, NodeOk, Restarted, BackOrders;
      RestartFrom(p, i);
    }

    /// Stops the actor alone; its children stay, with a parent that is gone.
    method StopSingle(a: Id)
      requires Valid(Now()) && a in nodes
      modifies this`nodes, this`stopped
      ensures Valid(Now()) && nodes == StruckOff(old(nodes), a) - {a} && stopped == old(stopped) + [a]
    {
      StruckOffValid(Now(), a);
      RemoveFromParent(a);
      nodes, stopped := nodes - {a}, stopped + [a];
    }

    /// The crashed child is replaced by a fresh one of the same kind, which goes to the end of the list.
    method OneForOne(p: Id, crashed: Id)
      requires Valid(Now()) && IsChild(Now(), crashed, p) && p in nodes
      modifies this
      ensures Valid(Now()) && stopped == old(stopped) + [crashed] && ReplacedAlone(old(Now()), Now(), p, crashed)
    {
      var spec := nodes[crashed].spec;
      ghost var t := Now();
      StruckOffThenSpawned(t, p, crashed);
      hide *;
      StopSingle(crashed);
      Same(Now(), Tree(StruckOff(t.nodes, crashed) - {crashed}, t.next));
      var _ := SpawnChild(p, spec);
    }

    /// The restart is charged to the record of its key, and granted while the budget lasts. A child that has used up its
    /// restarts is stopped with all below it; otherwise its parent's strategy applies. An actor without a parent, or whose
    /// parent is gone, is left alone.
    method HandleChildCrash(crashed: Id, strategy: Strategy, options: RI.Options, now: int)
      requires Valid(Now())
      modifies this, supervisor
      ensures Valid(Now()) && Crashed(old(Snap()), Snap(), crashed, strategy, options, now)
      ensures !HasParent(old(Now()), crashed) ==> stopped == old(stopped)
      ensures HasParent(old(Now()), crashed) ==>
                stopped == old(stopped) + if Grants(old(Snap()), crashed, options, now)
                                          then Ended(old(Now()), old(nodes)[crashed].parent.value, crashed, strategy)
                                          else PostOrder(old(Now()), crashed)
    {
      if crashed !in nodes || nodes[crashed].parent.None? || nodes[crashed].parent.value !in nodes { return; }
      var key := (nodes[crashed].parent.value, KeyOf(nodes[crashed].spec, crashed));
      var granted := supervisor.CanRestart(key, now, options);
      Respond(crashed, strategy, granted);
    }

    method Respond(crashed: Id, strategy: Strategy, granted: bool)
      requires Valid(Now()) && HasParent(Now(), crashed)
      modifies this
      ensures Valid(Now())
      ensures !granted ==> Now() == Removed(old(Now()), crashed) && stopped == old(stopped) + PostOrder(old(Now()), crashed)
      ensures granted ==> Replaced(old(Now()), Now(), old(nodes)[crashed].parent.value, crashed, strategy)
      ensures granted ==> stopped == old(stopped) + Ended(old(Now()), old(nodes)[crashed].parent.value, crashed, strategy)
    {
      var p := nodes[crashed].parent.value;
      assert NodeOk(Now(), crashed);
      hide Valid, NodeOk, Replaced, Removed, PostOrder;
      if granted { ApplyStrategy(p, crashed, strategy); } else { Stop(crashed); }
    }

    method ApplyStrategy(p: Id, crashed: Id, strategy: Strategy)
      requires Valid(Now()) && IsChild(Now(), crashed, p) && p in nodes
      modifies this
      ensures Valid(Now()) && Replaced(old(Now()), Now(), p, crashed, strategy)
      ensures stopped == old(stopped) + Ended(old(Now()), p, crashed, strategy)
    {
      assert NodeOk(Now(), crashed);
      ghost var t := Now();
      ghost var i := Place(nodes[p].order, crashed);
      hide Valid, NodeOk, Restarted, ReplacedAlone, BackOrders, Replaced;
      match strategy
      case OneForOne =>
        OneForOne(p, crashed);
        AloneIsReplaced(t, Now(), p, crashed);
      case OneForAll =>
        OneForAll(p);
        AllAreReplaced(t, Now(), p, crashed);
      case RestForOne =>
        RestForOne(p, crashed);
        RestIsReplaced(t, Now(), p, crashed, i);
    }
  }

  lemma AloneIsReplaced(t: Tree, u: Tree, p: Id, c: Id)
    requires c in t.nodes && p in t.nodes && ReplacedAlone(t, u, p, c)
    ensures Replaced(t, u, p, c, OneForOne)
  {
  }

  lemma AllAreReplaced(t: Tree, u: Tree, p: Id, c: Id)
    requires c in t.nodes && p in t.nodes && Restarted(t, u, p, 0)
    ensures Replaced(t, u, p, c, OneForAll)
  {
  }

  lemma RestIsReplaced(t: Tree, u: Tree, p: Id, c: Id, i: nat)
    requires c in t.nodes && p in t.nodes && i < |t.nodes[p].order| && t.nodes[p].order[i] == c && Restarted(t, u, p, i)
    ensures Replaced(t, u, p, c, RestForOne)
  {
  }

  /// Restarts are counted by parent and child key.
  type Key = (Id, ChildKey)

  datatype Snapshot = Snapshot(tree: Tree, records: map<Key, RI.Record>)

  function KeyIn(t: Tree, c: Id): Key
    requires HasParent(t, c)
  {
    (t.nodes[c].parent.value, KeyOf(t.nodes[c].spec, c))
  }

  /// Whether a crash of `c` is answered by a restart.
  ghost predicate Grants(s: Snapshot, c: Id, o: RI.Options, now: int) {
    HasParent(s.tree, c) && RI.Granted(RI.RecordIn(s.records, KeyIn(s.tree, c)), now, o)
  }

  /// The record of one key moves on by one crash; all others stay.
  ghost predicate Charged(before: map<Key, RI.Record>, after: map<Key, RI.Record>, key: Key, o: RI.Options, now: int) {
    RI.RecordIn(after, key) == RI.Next(RI.RecordIn(before, key), now, o) && after - {key} == before - {key}
  }

  /// What a crash of `c` makes of a tree and its restart records.
  ghost predicate Crashed(s: Snapshot, u: Snapshot, c: Id, strategy: Strategy, o: RI.Options, now: int) {
    if !HasParent(s.tree, c) then u == s
    else
      && Charged(s.records, u.records, KeyIn(s.tree, c), o, now)
      && if Grants(s, c, o, now) then Replaced(s.tree, u.tree, s.tree.nodes[c].parent.value, c, strategy)
         else u.tree == Removed(s.tree, c)
  }

  datatype Strategy = OneForOne | OneForAll | RestForOne

  predicate HasParent(t: Tree, c: Id) {
    c in t.nodes && t.nodes[c].parent.Some? && t.nodes[c].parent.value in t.nodes
  }

  /// What each strategy makes of a crash of `c`, a child of `p`.
  ghost predicate Replaced(t: Tree, u: Tree, p: Id, c: Id, strategy: Strategy)
    requires c in t.nodes && p in t.nodes
  {
    match strategy
    case OneForOne => ReplacedAlone(t, u, p, c)
    case OneForAll => Restarted(t, u, p, 0)
    case RestForOne => exists i :: 0 <= i < |t.nodes[p].order| && t.nodes[p].order[i] == c && Restarted(t, u, p, i)
  }

  /// A fresh child of the same kind comes last; the others stay in order; those below `c` stay.
  ghost predicate ReplacedAlone(t: Tree, u: Tree, p: Id, c: Id)
    requires c in t.nodes && p in t.nodes
  {
    && u.next == t.next + 1 && u.nodes.Keys == t.nodes.Keys - {c} + {t.next}
    && p in u.nodes && u.nodes[p] == t.nodes[p].(order := Without(t.nodes[p].order, c) + [t.next])
    && u.nodes[t.next] == Node(Some(p), t.nodes[c].spec, [])
    && forall x :: x in t.nodes && x != c && x != p ==> x in u.nodes && u.nodes[x] == t.nodes[x]
  }

  /// The subtrees of the children of `p` from position `lo` up to `hi`, youngest first.
  function BackOrders(t: Tree, p: Id, lo: nat, hi: nat): seq<Id>
    requires p in t.nodes && hi <= |t.nodes[p].order|
    decreases hi
  {
    if hi <= lo then [] else PostOrder(t, t.nodes[p].order[hi - 1]) + BackOrders(t, p, lo, hi - 1)
  }

  /// The actors that end when `c` crashes, in order.
  function Ended(t: Tree, p: Id, c: Id, strategy: Strategy): seq<Id>
    requires p in t.nodes
  {
    var kids := t.nodes[p].order;
    match strategy
    case OneForOne => [c]
    case OneForAll => BackOrders(t, p, 0, |kids|)
    case RestForOne => if c in kids then BackOrders(t, p, Place(kids, c), |kids|) else []
  }

  lemma LastOfBackOrders(t: Tree, p: Id, lo: nat, i: nat, stopped: seq<Id>)
    requires p in t.nodes && lo <= i < |t.nodes[p].order|
    ensures stopped + BackOrders(t, p, lo, i + 1) == (stopped + PostOrder(t, t.nodes[p].order[i])) + BackOrders(t, p, lo, i)
  {
    hide PostOrder;
    assert BackOrders(t, p, lo, i + 1) == PostOrder(t, t.nodes[p].order[i]) + BackOrders(t, p, lo, i);
  }

  lemma Shorter(kids: seq<Id>, left: seq<Id>, i: nat)
    requires i < |kids| && left == kids[..i + 1]
    ensures left[i] == kids[i] && left[..i] == kids[..i]
  {
  }

  lemma NoBackOrders(t: Tree, p: Id, lo: nat)
    requires p in t.nodes && lo <= |t.nodes[p].order|
    ensures BackOrders(t, p, lo, lo) == []
  {
  }

  lemma LastGone(t: Tree, p: Id, gone: set<Id>, order: seq<Id>, i: nat)
    requires Remaining(t, p, gone, order) && |order| == i + 1
    ensures Remaining(t, p, gone + {order[i]}, order[..i]) && order[i] in order && Without(order, order[i]) == order[..i]
  {
    RemainingStep(t, p, gone, order, i);
    WithoutIs(order, i);
    assert order[..i] + order[i + 1..] == order[..i];
  }

  lemma NextGone(t: Tree, p: Id, gone: set<Id>, order: seq<Id>)
    requires Remaining(t, p, gone, order) && order != []
    ensures Remaining(t, p, gone + {order[0]}, order[1..]) && order[0] in order && Without(order, order[0]) == order[1..]
    ensures IsChild(t, order[0], p)
  {
    RemainingStep(t, p, gone, order, 0);
  }

  /// `u` is `t` with a child of `p` more for each of `specs`, the rest as before.
  ghost predicate Grown(t: Tree, u: Tree, p: Id, specs: seq<Spec>) {
    && p in t.nodes && p in u.nodes && u.next == t.next + |specs|
    && u.nodes.Keys == t.nodes.Keys + SetOf(Fresh(t.next, |specs|))
    && u.nodes[p] == t.nodes[p].(order := t.nodes[p].order + Fresh(t.next, |specs|))
    && (forall i :: 0 <= i < |specs| ==> Fresh(t.next, |specs|)[i] in u.nodes && u.nodes[Fresh(t.next, |specs|)[i]] == Node(Some(p), specs[i], []))
    && (forall x :: x in t.nodes && x != p ==> u.nodes[x] == t.nodes[x])
  }

  lemma Prefixes(specs: seq<Spec>)
    ensures specs[..0] == [] && specs[..|specs|] == specs
    ensures forall i :: 0 <= i < |specs| ==> specs[..i + 1] == specs[..i] + [specs[i]]
  {
  }

  lemma AllAreOlder(t: Tree)
    requires Valid(t)
    ensures forall x :: x in t.nodes ==> x < t.next
  {
    forall x | x in t.nodes ensures x < t.next { assert NodeOk(t, x); }
  }

  lemma NothingGrown(t: Tree, p: Id)
    requires p in t.nodes
    ensures Grown(t, t, p, [])
  {
    assert t.nodes[p].order + Fresh(t.next, 0) == t.nodes[p].order;
  }

  lemma FreshGrows(from: Id, n: nat)
    ensures Fresh(from, n + 1) == Fresh(from, n) + [from + n]
    ensures SetOf(Fresh(from, n + 1)) == SetOf(Fresh(from, n)) + {from + n}
    ensures from + n !in Fresh(from, n)
  {
  }

  lemma GrowsByOne(t: Tree, u: Tree, p: Id, specs: seq<Spec>, spec: Spec)
    requires Valid(t) && Grown(t, u, p, specs)
    ensures p in u.nodes && Grown(t, Spawned(u, p, spec), p, specs + [spec])
  {
    var n := |specs|;
    FreshGrows(t.next, n);
    AllAreOlder(t);
    hide Valid, NodeOk, Fresh, SetOf;
    assert t.nodes[p].order + (Fresh(t.next, n) + [t.next + n]) == (t.nodes[p].order + Fresh(t.next, n)) + [t.next + n];
  }

  ghost predicate SpecsOf(t: Tree, p: Id, from: nat, specs: seq<Spec>)
    requires p in t.nodes
  {
    var kids := t.nodes[p].order;
    |specs| == |kids| - from && forall i :: from <= i < |kids| ==> kids[i] in t.nodes && specs[i - from] == t.nodes[kids[i]].spec
  }

  /// The children of `p` from position `from` on have been replaced: those before keep their ids; fresh ones
  /// of the same kinds follow in the same order; all that was at or below a replaced child is gone; nothing else changed.
  ghost predicate Restarted(t: Tree, u: Tree, p: Id, from: nat)
    requires p in t.nodes && from <= |t.nodes[p].order|
  {
    var kids := t.nodes[p].order;
    && u.next == t.next + |kids| - from
    && p in u.nodes && u.nodes[p] == t.nodes[p].(order := kids[..from] + Fresh(t.next, |kids| - from))
    && (forall j :: from <= j < |kids| ==>
          var c := u.nodes[p].order[j];
          c in u.nodes && kids[j] in t.nodes && u.nodes[c] == Node(Some(p), t.nodes[kids[j]].spec, []))
    && (forall x :: x in u.nodes <==>
          (x in t.nodes && !UnderAny(t, x, SetOf(kids[from..]))) || x in Fresh(t.next, |kids| - from))
    && (forall x :: x in t.nodes && x in u.nodes && x != p ==> u.nodes[x] == t.nodes[x])
  }

  lemma KeepsTheParent(t: Tree, p: Id, from: nat)
    requires Valid(t) && p in t.nodes && from <= |t.nodes[p].order|
    ensures p in Cut(t, p, SetOf(t.nodes[p].order[from..]), t.nodes[p].order[..from]).nodes
  {
    assert NodeOk(t, p);
    forall c | c in SetOf(t.nodes[p].order[from..]) ensures !Under(t, p, c) {
      assert IsChild(t, c, p);
      if Under(t, p, c) { UnderIsYounger(t, p, c); }
    }
  }

  lemma RestartedFrom(t: Tree, u: Tree, p: Id, from: nat, specs: seq<Spec>)
    requires Valid(t) && p in t.nodes && from <= |t.nodes[p].order| && SpecsOf(t, p, from, specs)
    requires Grown(Cut(t, p, SetOf(t.nodes[p].order[from..]), t.nodes[p].order[..from]), u, p, specs)
    ensures Restarted(t, u, p, from)
  {
    var kids := t.nodes[p].order;
    assert u.nodes[p].order == kids[..from] + Fresh(t.next, |kids| - from);
    forall x | x in t.nodes ensures x !in Fresh(t.next, |kids| - from) { assert NodeOk(t, x); }
    forall j | from <= j < |kids|
      ensures var c := u.nodes[p].order[j]; c in u.nodes && u.nodes[c] == Node(Some(p), t.nodes[kids[j]].spec, [])
    {
      assert u.nodes[p].order[j] == Fresh(t.next, |specs|)[j - from];
    }
  }

  lemma StruckOffValid(t: Tree, a: Id)
    requires Valid(t) && a in t.nodes
    ensures Valid(Tree(StruckOff(t.nodes, a) - {a}, t.next))
  {
    var u := Tree(StruckOff(t.nodes, a) - {a}, t.next);
    forall x | x in u.nodes ensures NodeOk(u, x) { StruckOffNodeOk(t, a, x); }
  }

  lemma StruckOffNodeOk(t: Tree, a: Id, x: Id)
    requires Valid(t) && a in t.nodes && x in t.nodes && x != a
    ensures NodeOk(Tree(StruckOff(t.nodes, a) - {a}, t.next), x)
  {
    var u := Tree(StruckOff(t.nodes, a) - {a}, t.next);
    assert NodeOk(t, x) && NodeOk(t, a);
    var order := t.nodes[x].order;
    if t.nodes[a].parent == Some(x) {
      WithoutKeeps(order, a);
    }
    forall c | c in u.nodes[x].order ensures IsChild(u, c, x) { assert IsChild(t, c, x); }
    if t.nodes[x].parent.Some? && t.nodes[x].parent.value in u.nodes {
      var q := t.nodes[x].parent.value;
      if t.nodes[a].parent == Some(q) {
        assert NodeOk(t, q);
        WithoutKeeps(t.nodes[q].order, a);
      }
    }
  }
}
