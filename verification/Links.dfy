/// Links between local actors, and how a termination spreads along them while they are being removed.

module LinkGraph {
  type Id = nat
  type LinkId = nat

  datatype Link = Link(a: Id, b: Id)

  type Graph = map<LinkId, Link>

  predicate Touches(l: Link, x: Id) { l.a == x || l.b == x }

  /// The other end as seen from `x`; a self-link has `x` at both ends.
  function Other(l: Link, x: Id): Id { if l.a == x then l.b else l.a }

  /// `x` is reached from `first` by `n` links whose later nodes are all in `fragile`.
  ghost predicate ReachedIn(g: Graph, fragile: set<Id>, first: Id, x: Id, n: nat)
    decreases n
  {
    if n == 0 then x == first
    else x in fragile && exists l :: l in g && Touches(g[l], x) && ReachedIn(g, fragile, first, Other(g[l], x), n - 1)
  }

  ghost predicate Reachable(g: Graph, fragile: set<Id>, first: Id, x: Id) {
    exists n: nat :: ReachedIn(g, fragile, first, x, n)
  }

  lemma {:induction false} ReachableStep(g: Graph, fragile: set<Id>, first: Id, w: Id, l: LinkId)
    requires Reachable(g, fragile, first, w) && l in g && Touches(g[l], w) && Other(g[l], w) in fragile
    ensures Reachable(g, fragile, first, Other(g[l], w))
  {
    var n: nat :| ReachedIn(g, fragile, first, w, n);
    assert Other(g[l], Other(g[l], w)) == w;
    assert ReachedIn(g, fragile, first, Other(g[l], w), n + 1);
  }

  /// Closed under links to fragile actors.
  ghost predicate Closed(g: Graph, fragile: set<Id>, s: set<Id>) {
    forall l, w :: l in g && w in s && Touches(g[l], w) && Other(g[l], w) in fragile ==> Other(g[l], w) in s
  }

  /// A closed set that holds the start holds everything reachable.
  lemma {:induction false} ClosedHoldsReachable(g: Graph, fragile: set<Id>, first: Id, s: set<Id>, x: Id)
    requires Closed(g, fragile, s) && first in s && Reachable(g, fragile, first, x)
    ensures x in s
  {
    var n: nat :| ReachedIn(g, fragile, first, x, n);
    ClosedHoldsReachedIn(g, fragile, first, s, x, n);
  }

  lemma {:induction false} ClosedHoldsReachedIn(g: Graph, fragile: set<Id>, first: Id, s: set<Id>, x: Id, n: nat)
    requires Closed(g, fragile, s) && first in s && ReachedIn(g, fragile, first, x, n)
    ensures x in s
    decreases n
  {
    if n > 0 {
      var l :| l in g && Touches(g[l], x) && ReachedIn(g, fragile, first, Other(g[l], x), n - 1);
      ClosedHoldsReachedIn(g, fragile, first, s, Other(g[l], x), n - 1);
      assert Other(g[l], Other(g[l], x)) == x;
    }
  }

  /// All that is reachable from `first`.
  ghost function Reach(g: Graph, fragile: set<Id>, first: Id): set<Id> {
    set x | x in fragile + {first} && Reachable(g, fragile, first, x)
  }

  lemma ReachIsClosed(g: Graph, fragile: set<Id>, first: Id)
    ensures first in Reach(g, fragile, first) && Closed(g, fragile, Reach(g, fragile, first))
  {
    assert ReachedIn(g, fragile, first, first, 0);
    forall l, w | l in g && w in Reach(g, fragile, first) && Touches(g[l], w) && Other(g[l], w) in fragile
      ensures Other(g[l], w) in Reach(g, fragile, first)
    {
      ReachableStep(g, fragile, first, w, l);
    }
  }
}

module Termination {
  import opened LinkGraph

  datatype Reason = Normal | Failed | Killed

  /// The message a terminating actor `from` has for the actor at the other end of a link.
  datatype Exit = Exit(link: LinkId, from: Id, to: Id, reason: Reason)

  /// What has happened since one termination began: the links of the start, who can be reached over them,
  /// whether the first actor ended normally, the message each removed link stood for, who has ended, and the
  /// messages sent.
  datatype Trace = Trace(
    graph: Graph, reach: set<Id>, normal: bool, removed: map<LinkId, Exit>, ended: set<Id>, sent: seq<Exit>)

  ghost function Start(links: Graph, fragile: set<Id>, first: Id, normal: bool): Trace {
    Trace(links, Reach(links, fragile, first), normal, map[], {first}, [])
  }

  /// A removed link was removed by an actor at one of its ends that has ended.
  ghost predicate Faithful(t: Trace, e: Exit) {
    && e.link in t.graph && Touches(t.graph[e.link], e.from) && e.to == Other(t.graph[e.link], e.from)
    && e.from in t.ended && (e.reason == Normal <==> t.normal)
  }

  /// The links of the start are those still there and those removed; when the end is abnormal, fragile actors
  /// at the far end of a removed link have ended too, except that `next` is about to.
  ghost predicate Removing(t: Trace, links: Graph, fragile: set<Id>, next: set<Id>) {
    && (forall l :: l in t.graph <==> l in links || l in t.removed)
    && (forall l :: l in links ==> l !in t.removed && l in t.graph && links[l] == t.graph[l])
    && (forall l :: l in t.removed ==> t.removed[l].link == l && Faithful(t, t.removed[l]))
    && (!t.normal ==> forall l :: l in t.removed && t.removed[l].to in fragile ==> t.removed[l].to in t.ended + next)
  }

  ghost predicate DistinctLinks(s: seq<Exit>) { forall i, j :: 0 <= i < j < |s| ==> s[i].link != s[j].link }

  /// Exactly one message for each removed link whose far end traps exits, and no other message.
  ghost predicate Notified(t: Trace, trapping: set<Id>) {
    && DistinctLinks(t.sent)
    && (forall e :: e in t.sent ==> e.link in t.removed && t.removed[e.link] == e && e.to in trapping)
    && (forall l :: l in t.removed && t.removed[l].to in trapping ==> t.removed[l] in t.sent)
  }

  ghost predicate Spreading(t: Trace, links: Graph, fragile: set<Id>, trapping: set<Id>, next: set<Id>) {
    Removing(t, links, fragile, next) && Notified(t, trapping) && t.ended <= t.reach && Closed(t.graph, fragile, t.reach)
  }

  ghost predicate NoLinks(links: Graph, x: Id) { forall l :: l in links ==> !Touches(links[l], x) }

  function Remove(t: Trace, e: Exit): Trace { t.(removed := t.removed[e.link := e]) }

  function Send(t: Trace, e: Exit): Trace { t.(removed := t.removed[e.link := e], sent := t.sent + [e]) }

  function End(t: Trace, x: Id): Trace { t.(ended := t.ended + {x}) }

  lemma StartSpreads(links: Graph, first: Id, normal: bool, fragile: set<Id>, trapping: set<Id>)
    ensures Spreading(Start(links, fragile, first, normal), links, fragile, trapping, {})
  {
    ReachIsClosed(links, fragile, first);
  }

  lemma SendSpreads(t: Trace, links: Graph, fragile: set<Id>, trapping: set<Id>, e: Exit)
    requires Spreading(t, links, fragile, trapping, {}) && e.link in links && Faithful(t, e)
    requires e.to in trapping && fragile !! trapping
    ensures Spreading(Send(t, e), links - {e.link}, fragile, trapping, {})
  {
    var u := Send(t, e);
    forall m | m in t.sent ensures m.link != e.link {}
    assert DistinctLinks(u.sent);
  }

  lemma RemoveSpreads(t: Trace, links: Graph, fragile: set<Id>, trapping: set<Id>, e: Exit)
    requires Spreading(t, links, fragile, trapping, {}) && e.link in links && Faithful(t, e) && e.to !in trapping
    ensures Spreading(Remove(t, e), links - {e.link}, fragile, trapping, {e.to})
    ensures t.normal || e.to !in fragile ==> Spreading(Remove(t, e), links - {e.link}, fragile, trapping, {})
    ensures e.to in fragile ==> e.to in t.reach
  {
  }

  lemma EndSpreads(t: Trace, links: Graph, fragile: set<Id>, trapping: set<Id>, x: Id)
    requires Spreading(t, links, fragile, trapping, {x}) && x in t.reach
    ensures Spreading(End(t, x), links, fragile, trapping, {})
  {
  }

  ghost predicate AllDone(t: Trace, links: Graph) { forall y :: y in t.ended ==> NoLinks(links, y) }

  /// Once no ended actor has a link left, the ended actors of an abnormal termination are exactly those
  /// reachable from the first one.
  lemma {:induction false} EndedIsReachable(
    t: Trace, links: Graph, fragile: set<Id>, trapping: set<Id>, first: Id, x: Id)
    requires Spreading(t, links, fragile, trapping, {}) && AllDone(t, links) && !t.normal
    requires first in t.ended && t.reach == Reach(t.graph, fragile, first)
    ensures x in t.ended <==> Reachable(t.graph, fragile, first, x)
  {
    if Reachable(t.graph, fragile, first, x) {
      forall l, w | l in t.graph && w in t.ended && Touches(t.graph[l], w) && Other(t.graph[l], w) in fragile
        ensures Other(t.graph[l], w) in t.ended
      {
        assert NoLinks(links, w);
        assert l in t.removed;
        var e := t.removed[l];
        assert e.from == w || e.to == w;
      }
      ClosedHoldsReachable(t.graph, fragile, first, t.ended, x);
    }
  }

  /// `w` was sent a message for link `l` exactly when the actor at its other end has ended: one, from that actor.
  ghost predicate ToldOnce(t: Trace, w: Id, l: LinkId)
    requires l in t.graph
  {
    && (Other(t.graph[l], w) in t.ended <==> exists i :: 0 <= i < |t.sent| && t.sent[i].link == l)
    && forall i :: 0 <= i < |t.sent| && t.sent[i].link == l ==>
         && t.sent[i].to == w && t.sent[i].from == Other(t.graph[l], w) && (t.sent[i].reason == Normal <==> t.normal)
         && forall j :: 0 <= j < |t.sent| && j != i ==> t.sent[j].link != l
  }

  /// Then, too, each trapping actor other than the first was sent exactly one message for each link it had
  /// with an actor that ended, and got none for any other link.
  lemma ToldOncePerLink(
    t: Trace, links: Graph, fragile: set<Id>, trapping: set<Id>, first: Id, w: Id, l: LinkId)
    requires Spreading(t, links, fragile, trapping, {}) && fragile !! trapping && AllDone(t, links)
    requires first in t.ended && t.reach <= fragile + {first}
    requires w in trapping && w != first && l in t.graph && Touches(t.graph[l], w)
    ensures ToldOnce(t, w, l)
  {
    var o := Other(t.graph[l], w);
    if o in t.ended {
      assert NoLinks(links, o);
      assert l in t.removed;
      var e := t.removed[l];
      assert e in t.sent;
    }
    forall i | 0 <= i < |t.sent| && t.sent[i].link == l ensures t.sent[i] == t.removed[l] && t.sent[i].from == o {
      assert t.sent[i] in t.sent;
    }
  }

  /// The links left are those between actors that have not ended.
  lemma LinksLeft(t: Trace, links: Graph, fragile: set<Id>, trapping: set<Id>, l: LinkId)
    requires Spreading(t, links, fragile, trapping, {}) && AllDone(t, links)
    ensures l in links <==> l in t.graph && t.graph[l].a !in t.ended && t.graph[l].b !in t.ended
    ensures l in links ==> links[l] == t.graph[l]
  {
    if l in links {
      assert t.graph[l].a in t.ended ==> NoLinks(links, t.graph[l].a);
      assert t.graph[l].b in t.ended ==> NoLinks(links, t.graph[l].b);
    } else if l in t.graph {
      assert Faithful(t, t.removed[l]);
    }
  }
}
