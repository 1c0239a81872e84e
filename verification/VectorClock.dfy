/// Vector clocks: merge, compare, and what they say about causal pasts.

module VectorClock {
  import opened Basics

  /// Nodes are compared only by a total order, so numbers stand for their names.
  type Node = nat

  type Clock = map<Node, nat>

  datatype Order = Before | After | Concurrent

  /// Entry of a node; an absent node counts as 0.
  function Get(c: Clock, n: Node): nat { if n in c then c[n] else 0 }

  function Increment(c: Clock, n: Node): Clock { c[n := Get(c, n) + 1] }

  function Merge(c: Clock, d: Clock): Clock {
    map n | n in c.Keys + d.Keys :: Max(Get(c, n), Get(d, n))
  }

  ghost predicate Leq(c: Clock, d: Clock) { forall n :: Get(c, n) <= Get(d, n) }

  ghost function Compare(c: Clock, d: Clock): Order {
    if Leq(d, c) && !Leq(c, d) then After
    else if Leq(c, d) && !Leq(d, c) then Before
    else Concurrent
  }

  lemma {:induction false} MergeEntry(c: Clock, d: Clock, n: Node, v: nat)
    requires n !in d
    ensures Merge(c, d[n := v]) == Merge(c, d)[n := Max(Get(Merge(c, d), n), v)]
  {
    var l, r := Merge(c, d[n := v]), Merge(c, d)[n := Max(Get(Merge(c, d), n), v)];
    assert l.Keys == r.Keys;
    forall x | x in l ensures l[x] == r[x] {
      if x != n { assert Get(d[n := v], x) == Get(d, x); }
    }
  }

  class VectorClock {
    var clock: Clock

    constructor (clock: Clock)
      ensures this.clock == clock
    {
      this.clock := clock;
    }

    method IncrementNode(n: Node)
      modifies this
      ensures clock == Increment(old(clock), n)
    {
      var current := if n in clock then clock[n] else 0;
      clock := clock[n := current + 1];
    }

    method MergeFrom(other: VectorClock)
      modifies this
      ensures clock == Merge(old(clock), old(other.clock))
    {
      var entries, todo := other.clock, other.clock.Keys;
      ghost var start, merged := clock, map[];
      assert clock == Merge(start, merged);
      while todo != {}
        invariant forall x :: x in todo ==> x in entries
        invariant forall x :: x in merged <==> x in entries && x !in todo
        invariant forall x :: x in merged ==> merged[x] == entries[x]
        invariant clock == Merge(start, merged)
        decreases todo
      {
        var n :| n in todo;
        var current := if n in clock then clock[n] else 0;
        assert Merge(start, merged[n := entries[n]]) == clock[n := Max(current, entries[n])] by {
          MergeEntry(start, merged, n, entries[n]);
        }
        clock := clock[n := Max(current, entries[n])];
        todo := todo - {n};
        merged := merged[n := entries[n]];
      }
      assert merged == entries;
    }

    method CompareTo(other: VectorClock) returns (r: Order)
      ensures r == Compare(clock, other.clock)
    {
      var hasGreater, hasLess := false, false;
      var todo := clock.Keys + other.clock.Keys;
      while todo != {}
        invariant hasGreater <==> exists n :: n !in todo && Get(clock, n) > Get(other.clock, n)
        invariant hasLess <==> exists n :: n !in todo && Get(clock, n) < Get(other.clock, n)
        decreases todo
      {
        var n :| n in todo;
        var a, b := Get(clock, n), Get(other.clock, n);
        if a > b { hasGreater := true; }
        if a < b { hasLess := true; }
        todo := todo - {n};
      }
      assert hasGreater <==> !Leq(clock, other.clock);
      assert hasLess <==> !Leq(other.clock, clock);
      if hasGreater && !hasLess { return After; }
      if hasLess && !hasGreater { return Before; }
      r := Concurrent;
    }
  }

  lemma {:induction false} MergeIsJoin(c: Clock, d: Clock, n: Node)
    ensures Get(Merge(c, d), n) == Max(Get(c, n), Get(d, n))
    ensures Leq(c, Merge(c, d)) && Leq(d, Merge(c, d))
    ensures forall e :: Leq(c, e) && Leq(d, e) ==> Leq(Merge(c, d), e)
  {
    forall e | Leq(c, e) && Leq(d, e) ensures Leq(Merge(c, d), e) {
      forall x ensures Get(Merge(c, d), x) <= Get(e, x) {
        assert Get(c, x) <= Get(e, x) && Get(d, x) <= Get(e, x);
      }
    }
  }

  lemma {:induction false} LeqTransitive(c: Clock, d: Clock, e: Clock)
    requires Leq(c, d) && Leq(d, e)
    ensures Leq(c, e)
  {
    forall n ensures Get(c, n) <= Get(e, n) {
      assert Get(c, n) <= Get(d, n) <= Get(e, n);
    }
  }

  // ---------------------------------------------------------------------------------------------
  // Causal pasts

  /// The k-th local event of a node.
  datatype Tick = Tick(node: Node, k: nat)

  /// `past` consists, for every node m, of exactly the ticks 1..c[m].
  ghost predicate Summarizes(c: Clock, past: set<Tick>) {
    forall t :: t in past <==> 1 <= t.k <= Get(c, t.node)
  }

  lemma {:induction false} MergeSummarizes(c: Clock, p: set<Tick>, d: Clock, q: set<Tick>)
    requires Summarizes(c, p) && Summarizes(d, q)
    ensures Summarizes(Merge(c, d), p + q)
  {
    forall t ensures t in p + q <==> 1 <= t.k <= Get(Merge(c, d), t.node) {
      MergeIsJoin(c, d, t.node);
    }
  }

  lemma {:induction false} IncrementSummarizes(c: Clock, p: set<Tick>, n: Node)
    requires Summarizes(c, p)
    ensures Summarizes(Increment(c, n), p + {Tick(n, Get(c, n) + 1)})
  {
  }

  /// Comparing clocks compares pasts: dominance is containment, and "after" is strict containment.
  lemma {:induction false} CompareComparesPasts(c: Clock, p: set<Tick>, d: Clock, q: set<Tick>)
    requires Summarizes(c, p) && Summarizes(d, q)
    ensures Leq(c, d) <==> p <= q
    ensures Compare(c, d) == After <==> q < p
    ensures Compare(c, d) == Before <==> p < q
  {
    LeqIsContainment(c, p, d, q);
    LeqIsContainment(d, q, c, p);
  }

  lemma {:induction false} LeqIsContainment(c: Clock, p: set<Tick>, d: Clock, q: set<Tick>)
    requires Summarizes(c, p) && Summarizes(d, q)
    ensures Leq(c, d) <==> p <= q
  {
    if Leq(c, d) {
      forall t | t in p ensures t in q {
        assert Get(c, t.node) <= Get(d, t.node);
      }
    }
    if p <= q {
      forall n ensures Get(c, n) <= Get(d, n) {
        if Get(c, n) > 0 { assert Tick(n, Get(c, n)) in p; }
      }
    }
  }
}
