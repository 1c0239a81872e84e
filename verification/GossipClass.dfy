/// The membership protocol of one node: its own fields, its table of peers, and the events it emits.

module GossipClass {
  import opened Basics
  import opened Gossip

  const PROTOCOL_VERSION: int := 1

  class GossipProtocol {
    const id: Id
    const failureTimeoutMs: int
    var own: State
    var isLeaving: bool
    var peers: Table
    var events: seq<Event>
    ghost var published: seq<State>

    ghost function Account(): Node
      reads this
    {
      Node(own, peers, published)
    }

    ghost predicate Valid()
      reads this
    {
      isLeaving == own.leaving
    }

    /// A node knows itself from the start.
    constructor (id: Id, generation: int, now: int, failureTimeoutMs: int)
      ensures Valid() && this.id == id && this.failureTimeoutMs == failureTimeoutMs
      ensures Account() == Started(id, generation, now, []) && events == []
    {
      this.id, this.failureTimeoutMs := id, failureTimeoutMs;
      var self := State(generation, 0, false);
      own, isLeaving, events, published := self, false, [], [self];
      peers := map[id := Peer(id, self, now)];
    }

    /// One round of the gossip timer, up to the sending.
    method GossipLoop(now: int)
      requires Valid()
      modifies this
      ensures Valid() && Account() == Published(id, old(Account()), old(own).leaving, now) && events == old(events)
    {
      own := own.(heartbeat := own.heartbeat + 1);
      peers := peers[id := Peer(id, own, now)];
      published := published + [own];
    }

    /// Leaving twice does nothing the second time.
    method Leave(now: int)
      requires Valid()
      modifies this
      ensures Valid() && isLeaving && events == old(events)
      ensures Account() == if old(isLeaving) then old(Account()) else Published(id, old(Account()), true, now)
    {
      if isLeaving { return; }
      isLeaving := true;
      own := State(own.generation, own.heartbeat + 1, true);
      peers := peers[id := Peer(id, own, now)];
      published := published + [own];
    }

    /// A message of another protocol version is ignored; otherwise its entries are merged one after another.
    method HandleGossipMessage(version: Option<int>, incoming: seq<Peer>, now: int)
      requires Valid()
      modifies this`peers, this`events
      ensures Valid()
      ensures version.Some? && version.value != PROTOCOL_VERSION ==> peers == old(peers) && events == old(events)
      ensures version.None? || version.value == PROTOCOL_VERSION ==>
                peers == MergedAll(old(peers), incoming, now) && events == old(events) + ToldAll(old(peers), incoming, now)
    {
      if version.Some? && version.value != PROTOCOL_VERSION { return; }
      for i := 0 to |incoming|
        invariant peers == MergedAll(old(peers), incoming[..i], now)
        invariant events == old(events) + ToldAll(old(peers), incoming[..i], now)
      {
        assert incoming[..i + 1][..i] == incoming[..i];
        MergePeer(incoming[i], now);
      }
      assert incoming[..|incoming|] == incoming;
    }

    method MergePeer(p: Peer, now: int)
      modifies this`peers, this`events
      ensures peers == Merged(old(peers), p, now) && events == old(events) + Told(old(peers), p)
    {
      if p.id !in peers {
        if p.state.leaving { return; }
        peers, events := peers[p.id := p.(lastUpdated := now)], events + [Joined(p.id)];
        return;
      }
      var local := peers[p.id].state;
      if p.state.generation > local.generation {
        peers, events := peers[p.id := p.(lastUpdated := now)], events + [Updated(p.id)];
      } else if p.state.generation == local.generation {
        if p.state.heartbeat > local.heartbeat {
          peers := peers[p.id := p.(lastUpdated := now)];
          events := events + [if !local.leaving && p.state.leaving then Left(p.id) else Updated(p.id)];
        }
      }
    }

    /// Peers that have not been heard of for too long are dropped, each with one event; the node itself never is.
    method FailureDetectionLoop(now: int)
      modifies this`peers, this`events
      ensures peers == Swept(old(peers), id, now, failureTimeoutMs)
      ensures |old(events)| <= |events| && events[..|old(events)|] == old(events)
      ensures multiset(events[|old(events)|..]) == multiset(set x | x in old(peers) && x !in peers :: Left(x))
    {
      var todo := peers.Keys;
      ghost var gone: set<Event>, emitted: seq<Event> := {}, [];
      while todo != {}
        invariant todo <= old(peers).Keys
        invariant peers == map x | x in old(peers) && (x in todo || x == id || !Expired(old(peers)[x], now, failureTimeoutMs)) :: old(peers)[x]
        invariant events == old(events) + emitted && multiset(emitted) == multiset(gone)
        invariant gone == set x | x in old(peers) && x !in peers :: Left(x)
        decreases |todo|
      {
        var x :| x in todo;
        todo := todo - {x};
        if x != id && now - peers[x].lastUpdated > failureTimeoutMs {
          assert Left(x) !in gone;
          peers := peers - {x};
          events := events + [Left(x)];
          gone, emitted := gone + {Left(x)}, emitted + [Left(x)];
        }
      }
    }
  }
}
