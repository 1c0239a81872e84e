/// The link tables of the actor system and the mutually recursive code that edits them while a crash spreads.

module LinkClasses {
  import opened Basics
  import opened LinkGraph
  import opened Termination
  import opened Reasons
  import RI = RestartIntensity

  /// The index by actor agrees with the link table and has no empty entries.
  ghost predicate Indexed(links: Graph, linkedWith: map<Id, set<LinkId>>) {
    && (forall x, l :: x in linkedWith && l in linkedWith[x] ==> l in links && Touches(links[l], x))
    && (forall l :: l in links ==> links[l].a in linkedWith && l in linkedWith[links[l].a])
    && (forall l :: l in links ==> links[l].b in linkedWith && l in linkedWith[links[l].b])
    && (forall x {:trigger Holds(linkedWith, x)} :: x in linkedWith ==> Holds(linkedWith, x))
  }

  ghost predicate Holds(linkedWith: map<Id, set<LinkId>>, x: Id) { x in linkedWith && linkedWith[x] != {} }

  function Unindexed(index: map<Id, set<LinkId>>, x: Id, l: LinkId): map<Id, set<LinkId>> {
    if x !in index then index
    else if index[x] - {l} == {} then index - {x}
    else index[x := index[x] - {l}]
  }

  function AlsoIndexed(index: map<Id, set<LinkId>>, x: Id, l: LinkId): map<Id, set<LinkId>> {
    index[x := (if x in index then index[x] else {}) + {l}]
  }

  lemma UnindexedKeeps(links: Graph, index: map<Id, set<LinkId>>, l: LinkId)
    requires Indexed(links, index) && l in links
    ensures Indexed(links - {l}, Unindexed(Unindexed(index, links[l].a, l), links[l].b, l))
  {
    var left := links - {l};
    var one := Unindexed(index, links[l].a, l);
    var two := Unindexed(one, links[l].b, l);
    forall m | m in left
      ensures left[m].a in two && m in two[left[m].a]
      ensures left[m].b in two && m in two[left[m].b]
    {
      StillIndexed(index, links[l].a, l, links[m].a, m);
      StillIndexed(index, links[l].a, l, links[m].b, m);
      StillIndexed(one, links[l].b, l, links[m].a, m);
      StillIndexed(one, links[l].b, l, links[m].b, m);
    }
    forall x | x in two ensures Holds(two, x) {
      assert Holds(index, x);
    }
  }

  lemma StillIndexed(index: map<Id, set<LinkId>>, x: Id, l: LinkId, y: Id, m: LinkId)
    requires y in index && m in index[y] && m != l
    ensures y in Unindexed(index, x, l) && m in Unindexed(index, x, l)[y]
  {
    if x == y { assert m in index[x] - {l}; }
  }

  lemma AlsoIndexedKeeps(links: Graph, index: map<Id, set<LinkId>>, l: LinkId, link: Link)
    requires Indexed(links, index) && l !in links
    ensures Indexed(links[l := link], AlsoIndexed(AlsoIndexed(index, link.a, l), link.b, l))
  {
    var one := AlsoIndexed(index, link.a, l);
    var two := AlsoIndexed(one, link.b, l);
    forall x | x in two ensures Holds(two, x) {
      if x == link.a || x == link.b { assert l in two[x]; } else { assert Holds(index, x); }
    }
    forall x, m ensures x in two && m in two[x] <==> (x in index && m in index[x]) || (m == l && Touches(link, x)) {}
    hide AlsoIndexed;
  }

  datatype Moment = Moment(trace: Trace, links: Graph, stopping: set<Id>)

  /// What a part of a termination never undoes: links only go, whoever newly ended is stopping and has no link left.
  ghost predicate Progress(s: Moment, t: Moment) {
    && t.trace.graph == s.trace.graph && t.trace.reach == s.trace.reach && t.trace.normal == s.trace.normal
    && t.links.Keys <= s.links.Keys && s.trace.ended <= t.trace.ended && s.stopping <= t.stopping
    && t.trace.ended - s.trace.ended <= t.stopping && t.stopping - s.stopping <= t.trace.ended
    && (t.trace.normal ==> t.trace.ended == s.trace.ended)
    && forall x :: x in t.trace.ended && x !in s.trace.ended ==> NoLinks(t.links, x)
  }

  ghost predicate Agree(links: Graph, graph: Graph) { forall l :: l in links ==> l in graph && links[l] == graph[l] }

  lemma ProgressOn(s: Moment, t: Moment, u: Moment)
    requires Progress(s, t) && Progress(t, u)
    requires Agree(s.links, s.trace.graph) && Agree(t.links, s.trace.graph) && Agree(u.links, s.trace.graph)
    ensures Progress(s, u)
  {
    forall x | x in u.trace.ended && x !in s.trace.ended ensures NoLinks(u.links, x) {}
  }

  lemma SpreadingAgrees(t: Trace, links: Graph, fragile: set<Id>, trapping: set<Id>, next: set<Id>)
    requires Spreading(t, links, fragile, trapping, next)
    ensures Agree(links, t.graph)
  {
  }

  lemma OneOfTheLinks(t: Trace, links: Graph, fragile: set<Id>, trapping: set<Id>, a: Id, l: LinkId, reason: Reason)
    requires Spreading(t, links, fragile, trapping, {}) && a in t.ended && (reason == Normal <==> t.normal)
    requires l in links && Touches(links[l], a)
    ensures Faithful(t, Exit(l, a, Other(links[l], a), reason))
  {
  }

  lemma LinksOf(links: Graph, linkedWith: map<Id, set<LinkId>>, a: Id)
    requires Indexed(links, linkedWith)
    ensures a in linkedWith <==> !NoLinks(links, a)
    ensures a in linkedWith ==> forall l :: l in linkedWith[a] <==> l in links && Touches(links[l], a)
  {
    if a in linkedWith {
      assert Holds(linkedWith, a);
      var l :| l in linkedWith[a];
      assert l in links && Touches(links[l], a);
    }
  }

  lemma Stopping(s: Moment, t: Moment, a: Id)
    requires Progress(s, t) && a in t.trace.ended
    ensures Progress(s, t.(stopping := t.stopping + {a}))
  {
  }

  lemma MayEndAgain(t: Trace, links: Graph, fragile: set<Id>, trapping: set<Id>, x: Id)
    requires Spreading(t, links, fragile, trapping, {})
    ensures Spreading(t, links, fragile, trapping, {x})
  {
  }

  lemma AllAreDone(s: Moment, t: Moment, first: Id)
    requires Progress(s, t) && s.trace.ended == {first} && NoLinks(t.links, first) && first in t.stopping
    ensures AllDone(t.trace, t.links) && t.stopping == s.stopping + t.trace.ended
  {
    forall x | x in t.trace.ended ensures NoLinks(t.links, x) {}
  }

  lemma LinkGone(s: Moment, t: Moment, l: LinkId)
    requires t.trace.graph == s.trace.graph && t.trace.reach == s.trace.reach && t.trace.normal == s.trace.normal
    requires t.trace.ended == s.trace.ended && t.links == s.links - {l} && t.stopping == s.stopping
    ensures Progress(s, t)
  {
  }

  lemma OneMoreEnds(s: Moment, t: Moment, a: Id)
    requires Progress(s.(trace := End(s.trace, a)), t) && NoLinks(t.links, a) && !s.trace.normal
    ensures Progress(s, t.(stopping := t.stopping + {a}))
  {
  }

  /// The part of the actor system that ends root actors under the "Stop" strategy.
  class LinkSystem {
    const maxRestarts: int
    const periodMs: int
    var actors: set<Id>
    var trapExit: set<Id>
    var links: Graph
    var linkedWith: map<Id, set<LinkId>>
    var restartCounts: map<Id, RI.Record>
    var exits: seq<Exit>
    var stopping: set<Id>

    /// The termination under way, and the messages sent before it.
    ghost var trace: Trace
    ghost var before: seq<Exit>

    ghost predicate Valid() reads this`links, this`linkedWith { Indexed(links, linkedWith) }

    ghost function Fragile(): set<Id> reads this`actors, this`trapExit { actors - trapExit }

    ghost function Trapping(): set<Id> reads this`actors, this`trapExit { actors * trapExit }

    ghost predicate Going(next: set<Id>) reads this {
      && Valid() && Spreading(trace, links, Fragile(), Trapping(), next)
      && exits == before + trace.sent
    }

    constructor (maxRestarts: int, periodMs: int)
      ensures Valid() && links == map[] && actors == {} && exits == [] && stopping == {}
      ensures this.maxRestarts == maxRestarts && this.periodMs == periodMs
    {
      this.maxRestarts, this.periodMs := maxRestarts, periodMs;
      actors, trapExit, links, linkedWith, restartCounts, exits, stopping := {}, {}, map[], map[], map[], [], {};
    }

    /// Links two actors under a fresh link id; fails if either does not exist.
    method LinkActors(a: Id, b: Id, l: LinkId) returns (ok: bool)
      requires Valid() && l !in links
      modifies this`links, this`linkedWith
      ensures Valid()
      ensures ok <==> a in actors && b in actors
      ensures links == if ok then old(links)[l := Link(a, b)] else old(links)
    {
      if a !in actors || b !in actors { return false; }
      AlsoIndexedKeeps(links, linkedWith, l, Link(a, b));
      links := links[l := Link(a, b)];
      AddToIndex(a, l);
      AddToIndex(b, l);
      ok := true;
    }

    method AddToIndex(x: Id, l: LinkId)
      modifies this`linkedWith
      ensures linkedWith == AlsoIndexed(old(linkedWith), x, l)
    {
      if x !in linkedWith { linkedWith := linkedWith[x := {}]; }
      linkedWith := linkedWith[x := linkedWith[x] + {l}];
    }

    method RemoveFromIndex(x: Id, l: LinkId)
      modifies this`linkedWith
      ensures linkedWith == Unindexed(old(linkedWith), x, l)
    {
      if x in linkedWith {
        linkedWith := linkedWith[x := linkedWith[x] - {l}];
        if linkedWith[x] == {} { linkedWith := linkedWith - {x}; }
      }
    }

    /// Removing a link that does not exist does nothing.
    method Unlink(l: LinkId)
      requires Valid()
      modifies this`links, this`linkedWith
      ensures Valid() && links == old(links) - {l}
    {
      if l !in links {
        assert links - {l} == links;
        return;
      }
      UnindexedKeeps(links, linkedWith, l);
      var link := links[l];
      links := links - {l};
      RemoveFromIndex(link.a, l);
      RemoveFromIndex(link.b, l);
    }

    ghost function Books(now: int): Book reads this`trace, this`links, this`restartCounts {
      Book(trace.sent, links, restartCounts, now, maxRestarts, periodMs)
    }

    ghost function Now(): Moment reads this`trace, this`links, this`stopping { Moment(trace, links, stopping) }

    /// Removes every link of an ended actor, telling or ending the actor at the other end of each.
    /// The links may be edited by the very crashes this sets off, so each is looked up again before it is used.
    method NotifyLinkedActors(a: Id, reason: Reason, now: int)
      requires Going({}) && a in trace.ended
      requires (reason == Normal <==> trace.normal) || NoLinks(links, a)
      modifies this`links, this`linkedWith, this`restartCounts, this`exits, this`stopping, this`trace
      ensures Going({}) && Progress(old(Now()), Now()) && NoLinks(links, a) && a in trace.ended
      ensures Notifies(old(Books(now)), Books(now), a, reason)
      ensures old(NoLinks(links, a)) ==> Now() == old(Now()) && restartCounts == old(restartCounts)
      decreases links.Keys, 1
    {
      hide Spreading, Indexed, Notifies;
      NothingSaid(Books(now), a, reason);
      LinksOf(links, linkedWith, a);
      SpreadingAgrees(trace, links, Fragile(), Trapping(), {});
      if a !in linkedWith { return; }
      var todo := linkedWith[a];
      while todo != {}
        invariant Going({}) && Progress(old(Now()), Now()) && a in trace.ended
        invariant Notifies(old(Books(now)), Books(now), a, reason)
        invariant (reason == Normal <==> trace.normal) || NoLinks(links, a)
        invariant forall l :: l in links && Touches(links[l], a) ==> l in todo
        invariant forall l :: l in links && l in todo ==> Touches(links[l], a)
        invariant !old(NoLinks(links, a))
        decreases |todo|
      {
        var l :| l in todo;
        todo := todo - {l};
        ghost var was, soFar := Now(), Books(now);
        SpreadingAgrees(trace, links, Fragile(), Trapping(), {});
        if l in links {
          NotifyOver(a, l, reason, now);
          SpreadingAgrees(trace, links, Fragile(), Trapping(), {});
          ProgressOn(old(Now()), was, Now());
          NotifiesOn(old(Books(now)), soFar, Books(now), a, reason);
        }
      }
    }

    /// One link of an ended actor: removed first, so that the crash it may cause does not come back over it.
    method NotifyOver(a: Id, l: LinkId, reason: Reason, now: int)
      requires Going({}) && a in trace.ended && (reason == Normal <==> trace.normal)
      requires l in links && Touches(links[l], a)
      modifies this`links, this`linkedWith, this`restartCounts, this`exits, this`stopping, this`trace
      ensures Going({}) && Progress(old(Now()), Now()) && l !in links
      ensures Notifies(old(Books(now)), Books(now), a, reason)
      decreases links.Keys, 0
    {
      hide Notifies, Crashes, Spreading, Indexed, LinksAt;
      ghost var s := Books(now);
      var other := Other(links[l], a);
      OneOfTheLinks(trace, links, Fragile(), Trapping(), a, l, reason);
      SpreadingAgrees(trace, links, Fragile(), Trapping(), {});
      if other in actors && other in trapExit {
        Tell(Exit(l, a, other, reason));
        LinkGone(old(Now()), Now(), l);
        TellNotifies(s, Exit(l, a, other, reason));
      } else {
        Cut(Exit(l, a, other, reason));
        if other in actors && reason != Normal {
          ghost var was := Now();
          SpreadingAgrees(trace, links, Fragile(), Trapping(), {other});
          HandleCrash(other, now);
          SpreadingAgrees(trace, links, Fragile(), Trapping(), {});
          ProgressOn(old(Now()), was, Now());
          CutThenCrash(s, Books(now), a, l, other, reason);
        } else {
          CutNotifies(s, a, l, reason);
        }
      }
    }

    method Tell(e: Exit)
      requires Going({}) && Faithful(trace, e) && e.link in links && e.to in actors && e.to in trapExit
      modifies this`links, this`linkedWith, this`exits, this`trace
      ensures Going({}) && links == old(links) - {e.link} && trace == Send(old(trace), e)
    {
      hide Spreading, Indexed;
      SendSpreads(trace, links, Fragile(), Trapping(), e);
      Unlink(e.link);
      exits := exits + [e];
      trace := Send(trace, e);
    }

    method Cut(e: Exit)
      requires Going({}) && Faithful(trace, e) && e.link in links && !(e.to in actors && e.to in trapExit)
      modifies this`links, this`linkedWith, this`trace
      ensures Going({e.to}) && Progress(old(Now()), Now()) && links == old(links) - {e.link} && trace.ended == old(trace).ended
      ensures trace.sent == old(trace).sent
      ensures trace.normal || e.to !in Fragile() ==> Going({})
      ensures e.to in Fragile() ==> e.to in trace.reach
    {
      hide Spreading, Indexed;
      RemoveSpreads(trace, links, Fragile(), Trapping(), e);
      Unlink(e.link);
      trace := Remove(trace, e);
      LinkGone(old(Now()), Now(), e.link);
    }

    /// What a crash counts as: a failure while the restart budget lasts, a kill once it is spent. A budget period
    /// that has passed is begun anew.
    method Charge(a: Id, now: int) returns (reason: Reason)
      modifies this`restartCounts
      ensures reason == if RI.Granted(old(RecordOf(a)), now, Budget()) then Failed else Killed
      ensures RecordOf(a) == RI.Next(old(RecordOf(a)), now, Budget()) && restartCounts - {a} == old(restartCounts) - {a}
    {
      var record := if a in restartCounts then restartCounts[a] else RI.Record(0, now);
      if now - record.timestamp > periodMs {
        record := RI.Record(0, now);
        if a in restartCounts { restartCounts := restartCounts[a := record]; }
      }
      if record.count >= maxRestarts { return Killed; }
      restartCounts := restartCounts[a := RI.Record(record.count + 1, record.timestamp)];
      reason := Failed;
    }

    function Budget(): RI.Options { RI.Options(maxRestarts, periodMs) }

    function RecordOf(a: Id): Option<RI.Record> reads this`restartCounts { RI.RecordIn(restartCounts, a) }

    /// A root actor has crashed under the "Stop" strategy. It stays in `actors` while its links are removed, so
    /// a cycle of links can bring the crash back to it.
    method HandleCrash(a: Id, now: int)
      requires Going({a}) && !trace.normal && a in trace.reach
      modifies this`links, this`linkedWith, this`restartCounts, this`exits, this`stopping, this`trace
      ensures Going({}) && Progress(old(Now()), Now()) && NoLinks(links, a) && a in trace.ended && a in stopping
      ensures !RI.Granted(old(RecordOf(a)), now, Budget()) ==> a !in restartCounts
      ensures Crashes(old(Books(now)), Books(now), a)
      decreases links.Keys, 3
    {
      hide Spreading, Indexed, Progress, Notifies, Crashes;
      EndSpreads(trace, links, Fragile(), Trapping(), a);
      trace := End(trace, a);
      var reason := Charge(a, now);
      ghost var charged := Books(now);
      NotifyLinkedActors(a, reason, now);
      ghost var told := Books(now);
      OneMoreEnds(old(Now()), Now(), a);
      BeginStop(a, now);
      if reason == Killed { restartCounts := restartCounts - {a}; }
      ChargeThenNotify(old(Books(now)), charged, told, Books(now), a, reason);
    }

    /// The part of a stop that runs before its first pause; the rest of the links are told of a normal end.
    method BeginStop(a: Id, now: int)
      requires Going({}) && a in trace.ended && (trace.normal || NoLinks(links, a))
      modifies this`links, this`linkedWith, this`restartCounts, this`exits, this`stopping, this`trace
      ensures Going({}) && Progress(old(Now()), Now()) && NoLinks(links, a) && a in stopping && a in trace.ended
      ensures old(NoLinks(links, a)) ==>
                Now() == old(Now()).(stopping := old(stopping) + {a}) && restartCounts == old(restartCounts)
      decreases links.Keys, 2
    {
      hide Spreading, Indexed, Progress;
      NotifyLinkedActors(a, Normal, now);
      Stopping(old(Now()), Now(), a);
      stopping := stopping + {a};
    }

    /// What a whole termination of `first` has done, `sent` being the messages it sent.
    twostate predicate Terminated(first: Id) reads this {
      && trace.graph == old(links) && first in trace.ended && AllDone(trace, links)
      && (forall x :: x in trace.ended ==> x !in linkedWith)
      && (forall l :: l in links <==> l in old(links) && old(links)[l].a !in trace.ended && old(links)[l].b !in trace.ended)
      && Agree(links, old(links))
      && stopping == old(stopping) + trace.ended
      && exits == old(exits) + trace.sent
      && (forall w, l :: w in Trapping() && w != first && l in trace.graph && Touches(trace.graph[l], w) ==> ToldOnce(trace, w, l))
    }

    twostate lemma Outcome(first: Id)
      requires Going({}) && trace.graph == old(links) && trace.reach == Reach(trace.graph, Fragile(), first)
      requires before == old(exits) && first in trace.ended && AllDone(trace, links) && stopping == old(stopping) + trace.ended
      ensures Terminated(first)
    {
      hide Spreading, Indexed;
      forall x | x in trace.ended ensures x !in linkedWith {
        assert NoLinks(links, x);
        LinksOf(links, linkedWith, x);
      }
      forall l { LinksLeft(trace, links, Fragile(), Trapping(), l); }
      forall w, l | w in Trapping() && w != first && l in trace.graph && Touches(trace.graph[l], w) {
        ToldOncePerLink(trace, links, Fragile(), Trapping(), first, w, l);
      }
    }

    ghost method Begin(first: Id, normal: bool)
      requires Valid()
      modifies this`trace, this`before
      ensures Going({}) && trace == Start(links, Fragile(), first, normal) && before == exits
    {
      trace, before := Start(links, Fragile(), first, normal), exits;
      StartSpreads(links, first, normal, Fragile(), Trapping());
    }

    /// A crash ends exactly the actors reachable from the crashed one over links whose later nodes do not trap exits.
    method Crash(first: Id, now: int)
      requires Valid()
      modifies this`links, this`linkedWith, this`restartCounts, this`exits, this`stopping, this`trace, this`before
      ensures Valid() && Terminated(first) && !trace.normal
      ensures forall x :: x in trace.ended <==> Reachable(old(links), Fragile(), first, x)
      ensures Reasoned(old(Books(now)), trace.sent, first)
    {
      hide Spreading, Indexed, Crashes;
      Begin(first, false);
      ghost var start, books := Now(), Books(now);
      ReachIsClosed(links, Fragile(), first);
      MayEndAgain(trace, links, Fragile(), Trapping(), first);
      HandleCrash(first, now);
      ReasonsGiven(books, Books(now), first);
      AllAreDone(start, Now(), first);
      Outcome(first);
      forall x ensures x in trace.ended <==> Reachable(old(links), Fragile(), first, x) {
        EndedIsReachable(trace, links, Fragile(), Trapping(), first, x);
      }
    }

    /// A normal stop ends nobody else, whether they trap exits or not.
    method Stop(first: Id, now: int)
      requires Valid()
      modifies this`links, this`linkedWith, this`restartCounts, this`exits, this`stopping, this`trace, this`before
      ensures Valid() && Terminated(first) && trace.normal && trace.ended == {first}
    {
      hide Spreading, Indexed;
      Begin(first, true);
      ghost var start := Now();
      BeginStop(first, now);
      AllAreDone(start, Now(), first);
      Outcome(first);
    }

    /// The end of a stop: the actor goes.
    method FinishStop(a: Id)
      requires Valid()
      modifies this`actors, this`stopping
      ensures Valid() && actors == old(actors) - {a} && stopping == old(stopping) - {a}
    {
      actors, stopping := actors - {a}, stopping - {a};
    }
  }
}
