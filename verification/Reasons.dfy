/// Which reason a crashing actor gives its neighbours: how a cascade of crashes uses up restart budgets.

module Reasons {
  import opened LinkGraph
  import opened Termination
  import RI = RestartIntensity

  /// The messages sent, the links left and the restart records, seen at one instant under one budget.
  datatype Book = Book(
    sent: seq<Exit>, links: Graph, records: map<Id, RI.Record>, now: int, maxRestarts: int, periodMs: int)
  {
    function Budget(): RI.Options { RI.Options(maxRestarts, periodMs) }

    /// The record a crash of `a` is judged by.
    ghost function Window(a: Id): RI.Record { RI.Current(RI.RecordIn(records, a), now, Budget()) }

    /// The budget is spent: a crash counts as a kill.
    ghost predicate Spent(a: Id) { Window(a).count >= maxRestarts }

    ghost function Degree(a: Id): nat { |LinksAt(links, a)| }

    /// The budget lasts although the crash comes back over every link; each re-entry uses one up.
    ghost predicate Lasts(a: Id, crashes: int) { Window(a).count + Degree(a) + crashes <= maxRestarts }
  }

  ghost function LinksAt(links: Graph, a: Id): set<LinkId> { set l | l in links && Touches(links[l], a) }

  /// Whatever `a` has been told to say since is for this reason.
  ghost predicate Says(old_: seq<Exit>, new_: seq<Exit>, a: Id, reason: Reason) {
    |old_| <= |new_| && forall i :: |old_| <= i < |new_| && new_[i].from == a ==> new_[i].reason == reason
  }

  ghost predicate Silent(old_: seq<Exit>, new_: seq<Exit>, a: Id) {
    |old_| <= |new_| && forall i :: |old_| <= i < |new_| ==> new_[i].from != a
  }

  /// Messages are only added, links only removed.
  ghost predicate Onward(s: Book, t: Book) {
    && s.sent <= t.sent && t.links.Keys <= s.links.Keys && (forall l :: l in t.links ==> t.links[l] == s.links[l])
    && t.now == s.now && t.maxRestarts == s.maxRestarts && t.periodMs == s.periodMs
  }

  /// What holds of `a` over a stretch of a cascade, in which it may crash `crashes` times more than links come back to it.
  /// `mayKill` and `mayFail` say whether it is not under way itself with the other reason.
  ghost predicate Judged(s: Book, t: Book, a: Id, crashes: int, mayKill: bool, mayFail: bool) {
    && (mayKill && s.Spent(a) ==> (t.Spent(a) || NoLinks(t.links, a)) && Says(s.sent, t.sent, a, Killed))
    && (mayFail && s.Lasts(a, crashes) ==>
          && t.Window(a).count + t.Degree(a) <= s.Window(a).count + s.Degree(a) + crashes
          && (s.periodMs >= 0 ==> t.Window(a).count >= s.Window(a).count + crashes)
          && Says(s.sent, t.sent, a, Failed))
    && (NoLinks(s.links, a) && crashes == 0 ==> Silent(s.sent, t.sent, a))
  }

  /// `x` over a stretch in which `a` notifies its neighbours for `reason`.
  ghost predicate Notifying(s: Book, t: Book, a: Id, reason: Reason, x: Id) {
    (reason == Normal && x == a) || Judged(s, t, x, 0, x != a || reason == Killed, x != a || reason == Failed)
  }

  ghost predicate Notifies(s: Book, t: Book, a: Id, reason: Reason) {
    Onward(s, t) && forall x :: Notifying(s, t, a, reason, x)
  }

  /// `x` over a stretch that begins with a crash of `a`.
  ghost predicate Crashing(s: Book, t: Book, a: Id, x: Id) { Judged(s, t, x, if x == a then 1 else 0, true, true) }

  ghost predicate Crashes(s: Book, t: Book, a: Id) { Onward(s, t) && forall x :: Crashing(s, t, a, x) }

  lemma DegreeFalls(links: Graph, left: Graph, a: Id)
    requires left.Keys <= links.Keys && forall l :: l in left ==> left[l] == links[l]
    ensures |LinksAt(left, a)| <= |LinksAt(links, a)|
  {
    SubsetIsSmaller(LinksAt(left, a), LinksAt(links, a));
  }

  lemma {:induction false} SubsetIsSmaller(a: set<LinkId>, b: set<LinkId>)
    requires a <= b
    ensures |a| <= |b|
  {
    assert b == a + (b - a);
  }

  lemma DegreeFallsByOne(links: Graph, a: Id, l: LinkId)
    requires l in links && Touches(links[l], a)
    ensures |LinksAt(links - {l}, a)| == |LinksAt(links, a)| - 1
  {
    assert LinksAt(links - {l}, a) == LinksAt(links, a) - {l};
  }

  lemma JudgedOn(s: Book, t: Book, u: Book, a: Id, mayKill: bool, mayFail: bool)
    requires Onward(s, t) && Onward(t, u)
    requires Judged(s, t, a, 0, mayKill, mayFail) && Judged(t, u, a, 0, mayKill, mayFail)
    ensures Judged(s, u, a, 0, mayKill, mayFail)
  {
    hide Book.Window;
    assert forall i :: 0 <= i < |t.sent| ==> u.sent[i] == t.sent[i];
    if NoLinks(t.links, a) {
      assert NoLinks(u.links, a);
    }
  }

  lemma NotifiesOn(s: Book, t: Book, u: Book, a: Id, reason: Reason)
    requires Notifies(s, t, a, reason) && Notifies(t, u, a, reason)
    ensures Notifies(s, u, a, reason)
  {
    hide Judged;
    forall x ensures Notifying(s, u, a, reason, x) {
      assert Notifying(s, t, a, reason, x) && Notifying(t, u, a, reason, x);
      if reason != Normal || x != a { JudgedOn(s, t, u, x, x != a || reason == Killed, x != a || reason == Failed); }
    }
  }

  lemma NothingSaid(s: Book, a: Id, reason: Reason)
    ensures Notifies(s, s, a, reason)
  {
  }

  /// A link of `a` removed, with a message over it.
  lemma TellNotifies(s: Book, e: Exit)
    requires e.link in s.links && Touches(s.links[e.link], e.from)
    ensures Notifies(s, s.(sent := s.sent + [e], links := s.links - {e.link}), e.from, e.reason)
  {
    var t := s.(sent := s.sent + [e], links := s.links - {e.link});
    forall x ensures Notifying(s, t, e.from, e.reason, x) {
      DegreeFalls(s.links, t.links, x);
    }
  }

  /// A link of `a` removed, and no message over it.
  lemma CutNotifies(s: Book, a: Id, l: LinkId, reason: Reason)
    requires l in s.links
    ensures Notifies(s, s.(links := s.links - {l}), a, reason)
  {
    var t := s.(links := s.links - {l});
    forall x ensures Notifying(s, t, a, reason, x) {
      DegreeFalls(s.links, t.links, x);
    }
  }

  /// A link between `a` and `other` removed, which then crashes: the link has paid for the crash.
  lemma CutThenCrash(s: Book, u: Book, a: Id, l: LinkId, other: Id, reason: Reason)
    requires l in s.links && Touches(s.links[l], other)
    requires Crashes(s.(links := s.links - {l}), u, other)
    ensures Notifies(s, u, a, reason)
  {
    var t := s.(links := s.links - {l});
    forall x ensures Notifying(s, u, a, reason, x) {
      assert Crashing(t, u, other, x);
      assert t.Window(x) == s.Window(x);
      if x == other { DegreeFallsByOne(s.links, x, l); } else { DegreeFalls(s.links, t.links, x); }
      if NoLinks(s.links, x) { assert NoLinks(t.links, x); }
    }
  }

  /// The records after a crash of `a` has been charged.
  ghost predicate ChargedTo(s: Book, t: Book, a: Id, reason: Reason) {
    && t == s.(records := t.records)
    && reason == (if s.Spent(a) then Killed else Failed)
    && RI.RecordIn(t.records, a) == RI.Next(RI.RecordIn(s.records, a), s.now, s.Budget())
    && t.records - {a} == s.records - {a}
  }

  /// A whole crash: charged, the neighbours notified, and the record forgotten after a kill.
  lemma ChargeThenNotify(s: Book, t: Book, u: Book, v: Book, a: Id, reason: Reason)
    requires ChargedTo(s, t, a, reason) && Notifies(t, u, a, reason) && NoLinks(u.links, a)
    requires v == u.(records := if reason == Killed then u.records - {a} else u.records)
    ensures Crashes(s, v, a)
  {
    forall x ensures Crashing(s, v, a, x) {
      assert Notifying(t, u, a, reason, x);
      if x != a {
        RI.OthersAreKept(s.records, t.records, a, x);
        RI.OthersAreKept(u.records, v.records, a, x);
      }
    }
  }

  /// The reasons given in a whole cascade. An actor whose budget is spent when it begins tells all its neighbours that it was
  /// killed; one whose budget outlasts a crash over each of its links tells them all that it failed.
  ghost predicate Reasoned(s: Book, sent: seq<Exit>, first: Id) {
    && (forall e :: e in sent && s.Spent(e.from) ==> e.reason == Killed)
    && (forall e :: e in sent && s.Lasts(e.from, if e.from == first then 1 else 0) ==> e.reason == Failed)
  }

  lemma ReasonsGiven(s: Book, t: Book, first: Id)
    requires Crashes(s, t, first) && s.sent == []
    ensures Reasoned(s, t.sent, first)
  {
    forall e | e in t.sent
      ensures s.Spent(e.from) ==> e.reason == Killed
      ensures s.Lasts(e.from, if e.from == first then 1 else 0) ==> e.reason == Failed
    {
      assert Crashing(s, t, first, e.from);
    }
  }
}
