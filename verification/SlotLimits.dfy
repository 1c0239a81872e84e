/// What the restart budgets of child supervision say of a whole tree: how often one place among a parent's children can be
/// restarted, whoever holds it.

module SlotLimits {
  import opened Basics
  import opened Supervision
  import opened SupervisionClass
  import RI = RestartIntensity

  /// A crash and its handling, or anything else: actors come and go, but nobody changes kind or parent.
  datatype Incident = Crash(c: Id, strategy: Strategy, options: RI.Options, now: int) | Other

  ghost predicate Keeps(t: Tree, u: Tree) {
    t.next <= u.next && forall x :: x in u.nodes ==>
      if x in t.nodes then u.nodes[x].spec == t.nodes[x].spec && u.nodes[x].parent == t.nodes[x].parent else x >= t.next
  }

  ghost predicate Happens(s: Snapshot, e: Incident, u: Snapshot) {
    match e
    case Crash(c, strategy, o, now) => Crashed(s, u, c, strategy, o, now)
    case Other => Keeps(s.tree, u.tree) && u.records == s.records
  }

  ghost predicate History(ss: seq<Snapshot>, es: seq<Incident>) {
    && |ss| == |es| + 1 && (forall i :: 0 <= i < |ss| ==> Valid(ss[i].tree))
    && forall i :: 0 <= i < |es| ==> Happens(ss[i], es[i], ss[i + 1])
  }

  /// Crashes are handled in the order of their times.
  ghost predicate InTime(es: seq<Incident>) {
    forall i, j :: 0 <= i <= j < |es| && es[i].Crash? && es[j].Crash? ==> es[i].now <= es[j].now
  }

  /// The children of `p` are supervised under these options.
  ghost predicate Under(ss: seq<Snapshot>, es: seq<Incident>, p: Id, o: RI.Options)
    requires |ss| == |es| + 1
  {
    forall i :: 0 <= i < |es| && es[i].Crash? && HasParent(ss[i].tree, es[i].c) && ss[i].tree.nodes[es[i].c].parent == Some(p) ==>
      es[i].options == o
  }

  // ---------------------------------------------------------------------------------------------
  // Other things that happen

  lemma SpawningKeeps(t: Tree, p: Id, spec: Spec)
    requires p in t.nodes && Valid(t)
    ensures Keeps(t, Spawned(t, p, spec))
  {
    AllAreOlder(t);
  }

  lemma StoppingKeeps(t: Tree, a: Id)
    requires a in t.nodes
    ensures Keeps(t, Removed(t, a)) && Keeps(t, Tree(StruckOff(t.nodes, a) - {a}, t.next))
  {
  }

  // ---------------------------------------------------------------------------------------------
  // One key

  ghost predicate Charges(s: Snapshot, e: Incident, key: Key) {
    e.Crash? && HasParent(s.tree, e.c) && KeyIn(s.tree, e.c) == key
  }

  /// When children of this key crashed, and when such a crash was answered by a restart.
  ghost function CrashTimes(ss: seq<Snapshot>, es: seq<Incident>, key: Key, i: nat): seq<int>
    requires |ss| == |es| + 1 && i <= |es|
  {
    if i == 0 then []
    else CrashTimes(ss, es, key, i - 1) + if Charges(ss[i - 1], es[i - 1], key) then [es[i - 1].now] else []
  }

  ghost function GrantTimes(ss: seq<Snapshot>, es: seq<Incident>, key: Key, i: nat): seq<int>
    requires |ss| == |es| + 1 && i <= |es|
  {
    if i == 0 then []
    else GrantTimes(ss, es, key, i - 1) + Grant(ss[i - 1], es[i - 1], key)
  }

  ghost function Grant(s: Snapshot, e: Incident, key: Key): seq<int> {
    if Charges(s, e, key) && Grants(s, e.c, e.options, e.now) then [e.now] else []
  }

  /// The record of a key is what its crashes alone make of it.
  lemma {:induction false} KeyIsAccounted(ss: seq<Snapshot>, es: seq<Incident>, key: Key, o: RI.Options, i: nat)
    requires History(ss, es) && Under(ss, es, key.0, o) && ss[0].records == map[] && i <= |es|
    ensures RI.RecordIn(ss[i].records, key) == RI.After(CrashTimes(ss, es, key, i), o)
    ensures GrantTimes(ss, es, key, i) == RI.Restarts(CrashTimes(ss, es, key, i), o)
  {
    if i > 0 {
      KeyIsAccounted(ss, es, key, o, i - 1);
      assert Happens(ss[i - 1], es[i - 1], ss[i]);
      assert Charges(ss[i - 1], es[i - 1], key) ==> es[i - 1].options == o;
      KeyStep(ss[i - 1], es[i - 1], ss[i], key, o, CrashTimes(ss, es, key, i - 1));
    }
  }

  lemma KeyStep(s: Snapshot, e: Incident, u: Snapshot, key: Key, o: RI.Options, before: seq<int>)
    requires Happens(s, e, u) && (Charges(s, e, key) ==> e.options == o)
    requires RI.RecordIn(s.records, key) == RI.After(before, o)
    ensures var after := before + if Charges(s, e, key) then [e.now] else [];
      && RI.RecordIn(u.records, key) == RI.After(after, o)
      && RI.Restarts(after, o)
         == RI.Restarts(before, o) + Grant(s, e, key)
  {
    hide Replaced, Removed, RI.Next, RI.Granted;
    if Charges(s, e, key) {
      RI.OneMore(before, e.now, o);
    } else {
      assert before + [] == before && RI.Restarts(before, o) + [] == RI.Restarts(before, o);
      if e.Crash? && HasParent(s.tree, e.c) {
        RI.OthersAreKept(s.records, u.records, KeyIn(s.tree, e.c), key);
      }
    }
  }

  lemma {:induction false} CrashTimesAreOrdered(ss: seq<Snapshot>, es: seq<Incident>, key: Key, i: nat)
    requires |ss| == |es| + 1 && InTime(es) && i <= |es|
    ensures RI.Nondecreasing(CrashTimes(ss, es, key, i))
    ensures forall k, j :: 0 <= k < |CrashTimes(ss, es, key, i)| && i <= j < |es| && es[j].Crash? ==>
              CrashTimes(ss, es, key, i)[k] <= es[j].now
  {
    if i > 0 { CrashTimesAreOrdered(ss, es, key, i - 1); }
  }

  // ---------------------------------------------------------------------------------------------
  // One slot

  /// Who takes the place of `x`, a child of `p`, when the crash of another child, or its own, is answered by a restart.
  function Heir(t: Tree, p: Id, crashed: Id, strategy: Strategy, x: Id): Id
    requires p in t.nodes && crashed in t.nodes[p].order && x in t.nodes[p].order
  {
    var kids := t.nodes[p].order;
    var from := if strategy == RestForOne then Place(kids, crashed) else 0;
    if strategy == OneForOne then (if x == crashed then t.next else x)
    else if Place(kids, x) < from then x else t.next + Place(kids, x) - from
  }

  ghost predicate Holds(t: Tree, h: Id, p: Id, spec: Spec) {
    h in t.nodes && t.nodes[h].parent == Some(p) && t.nodes[h].spec == spec
  }

  lemma HolderIsListed(t: Tree, h: Id, p: Id, spec: Spec)
    requires Valid(t) && Holds(t, h, p, spec) && p in t.nodes
    ensures IsChild(t, h, p) && h in t.nodes[p].order
  {
    assert NodeOk(t, h);
  }

  /// The heir of a child has its parent and is of its kind.
  lemma HeirHolds(t: Tree, u: Tree, p: Id, c: Id, strategy: Strategy, x: Id, spec: Spec)
    requires Valid(t) && p in t.nodes && c in t.nodes[p].order && c in t.nodes
    requires Holds(t, x, p, spec) && x in t.nodes[p].order && Replaced(t, u, p, c, strategy)
    ensures Holds(u, Heir(t, p, c, strategy, x), p, spec)
  {
    assert NodeOk(t, p) && IsChild(t, x, p) && Distinct(t.nodes[p].order);
    hide *;
    match strategy
    case OneForOne => HeirOfOne(t, u, p, c, x, spec);
    case OneForAll => HeirOfAll(t, u, p, c, x, spec);
    case RestForOne => HeirOfRest(t, u, p, c, x, spec);
  }

  lemma HeirOfAll(t: Tree, u: Tree, p: Id, c: Id, x: Id, spec: Spec)
    requires Valid(t) && p in t.nodes && c in t.nodes && c in t.nodes[p].order && x in t.nodes[p].order
    requires Holds(t, x, p, spec) && IsChild(t, x, p) && Replaced(t, u, p, c, OneForAll)
    ensures Holds(u, Heir(t, p, c, OneForAll, x), p, spec)
  {
    hide Restarted, Holds, Place, Valid;
    HeirOfRestart(t, u, p, 0, Place(t.nodes[p].order, x), x, spec);
  }

  lemma HeirOfRest(t: Tree, u: Tree, p: Id, c: Id, x: Id, spec: Spec)
    requires Valid(t) && p in t.nodes && c in t.nodes && c in t.nodes[p].order && x in t.nodes[p].order
    requires Holds(t, x, p, spec) && IsChild(t, x, p) && Replaced(t, u, p, c, RestForOne) && Distinct(t.nodes[p].order)
    ensures Holds(u, Heir(t, p, c, RestForOne, x), p, spec)
  {
    hide Restarted, Holds, Place, Valid, Replaced, Distinct;
    RestartedAtPlace(t, u, p, c);
    HeirOfRestart(t, u, p, Place(t.nodes[p].order, c), Place(t.nodes[p].order, x), x, spec);
  }

  lemma RestartedAtPlace(t: Tree, u: Tree, p: Id, c: Id)
    requires p in t.nodes && c in t.nodes && c in t.nodes[p].order && Distinct(t.nodes[p].order)
    requires Replaced(t, u, p, c, RestForOne)
    ensures Restarted(t, u, p, Place(t.nodes[p].order, c))
  {
    hide Restarted, Place, Distinct;
    var i :| 0 <= i < |t.nodes[p].order| && t.nodes[p].order[i] == c && Restarted(t, u, p, i);
    PlaceIs(t.nodes[p].order, i);
  }

  lemma HeirOfOne(t: Tree, u: Tree, p: Id, c: Id, x: Id, spec: Spec)
    requires Valid(t) && p in t.nodes && c in t.nodes && Holds(t, x, p, spec) && Replaced(t, u, p, c, OneForOne)
    requires c in t.nodes[p].order && x in t.nodes[p].order
    ensures Holds(u, Heir(t, p, c, OneForOne, x), p, spec)
  {
    assert NodeOk(t, x);
    hide Without, Distinct, Place, Valid, NodeOk;
  }

  /// A child before the restarted ones is not below any of them.
  lemma EarlierIsNotBelow(t: Tree, p: Id, from: nat, j: nat)
    requires Valid(t) && p in t.nodes && j < from <= |t.nodes[p].order|
    ensures !UnderAny(t, t.nodes[p].order[j], SetOf(t.nodes[p].order[from..]))
  {
    var kids := t.nodes[p].order;
    var x := kids[j];
    assert NodeOk(t, p);
    forall a | a in SetOf(kids[from..]) ensures !Supervision.Under(t, x, a) {
      var k :| from <= k < |kids| && kids[k] == a;
      DistinctAt(kids, k);
      assert kids[j] in kids[..k];
      assert IsChild(t, a, p) && IsChild(t, x, p);
      SiblingsApart(t, x, x, a, p);
    }
  }

  lemma FreshAt(kids: seq<Id>, from: nat, next: Id, j: nat)
    requires from <= j < |kids|
    ensures (kids[..from] + Fresh(next, |kids| - from))[j] == next + j - from
  {
  }

  lemma LaterIsReplaced(t: Tree, u: Tree, p: Id, from: nat, j: nat)
    requires p in t.nodes && from <= j < |t.nodes[p].order| && Restarted(t, u, p, from)
    requires t.nodes[p].order[j] in t.nodes
    ensures Holds(u, t.next + j - from, p, t.nodes[t.nodes[p].order[j]].spec)
  {
    hide Fresh, UnderAny, SetOf;
    var c := u.nodes[p].order[j];
    FreshAt(t.nodes[p].order, from, t.next, j);
    assert c == t.next + j - from;
    assert u.nodes[c] == Node(Some(p), t.nodes[t.nodes[p].order[j]].spec, []);
  }

  lemma EarlierStays(t: Tree, u: Tree, p: Id, from: nat, x: Id, spec: Spec)
    requires p in t.nodes && from <= |t.nodes[p].order| && Restarted(t, u, p, from)
    requires Holds(t, x, p, spec) && x != p && !UnderAny(t, x, SetOf(t.nodes[p].order[from..]))
    ensures Holds(u, x, p, spec)
  {
    hide UnderAny, Fresh;
  }

  lemma HeirOfRestart(t: Tree, u: Tree, p: Id, from: nat, j: nat, x: Id, spec: Spec)
    requires Valid(t) && p in t.nodes && from <= |t.nodes[p].order| && Restarted(t, u, p, from)
    requires j < |t.nodes[p].order| && t.nodes[p].order[j] == x && Holds(t, x, p, spec) && IsChild(t, x, p)
    ensures Holds(u, if j < from then x else t.next + j - from, p, spec)
  {
    hide Valid, Restarted, UnderAny, SetOf;
    if j < from {
      EarlierIsNotBelow(t, p, from, j);
      EarlierStays(t, u, p, from, x, spec);
    } else {
      LaterIsReplaced(t, u, p, from, j);
    }
  }

  /// Whether a child's key outlives its id.
  predicate Lasting(spec: Spec) { spec.name != "" || spec.args.Some? }

  /// A child's restarts are counted on after it has been replaced exactly if it has a name or arguments.
  lemma HeirKeepsKeyIff(t: Tree, u: Tree, p: Id, c: Id, strategy: Strategy, x: Id)
    requires Valid(t) && IsChild(t, c, p) && IsChild(t, x, p) && p in t.nodes && Replaced(t, u, p, c, strategy)
    ensures c in t.nodes[p].order && x in t.nodes[p].order
    ensures var h := Heir(t, p, c, strategy, x);
      HasParent(u, h) && (KeyIn(u, h) == KeyIn(t, x) <==> h == x || Lasting(t.nodes[x].spec))
  {
    HolderIsListed(t, c, p, t.nodes[c].spec);
    HolderIsListed(t, x, p, t.nodes[x].spec);
    HeirHolds(t, u, p, c, strategy, x, t.nodes[x].spec);
    ParentStays(t, u, p, c, strategy);
    hide Heir, Replaced, Valid;
  }

  lemma ParentStays(t: Tree, u: Tree, p: Id, c: Id, strategy: Strategy)
    requires p in t.nodes && c in t.nodes && Replaced(t, u, p, c, strategy)
    ensures p in u.nodes
  {
  }

  /// Which children are counted together: those of one parent and one name, or, nameless, of equal arguments. Children of
  /// different parents never are.
  lemma CountedTogetherIff(t: Tree, a: Id, b: Id)
    requires HasParent(t, a) && HasParent(t, b)
    ensures KeyIn(t, a) == KeyIn(t, b) ==> t.nodes[a].parent == t.nodes[b].parent
    ensures var v, w := t.nodes[a].spec, t.nodes[b].spec;
      t.nodes[a].parent == t.nodes[b].parent && (v.name != "" <==> w.name != "") && (v.args.Some? <==> w.args.Some?) ==>
        (KeyIn(t, a) == KeyIn(t, b) <==> v.name == w.name && (v.name != "" || v.args == w.args) && (Lasting(v) || a == b))
  {
  }

  /// Who holds the slot that `x` held when `b` incidents had happened; nobody once a holder is gone without an heir.
  ghost function Holder(ss: seq<Snapshot>, es: seq<Incident>, x: Id, b: nat, i: nat): Option<Id>
    requires |ss| == |es| + 1 && b <= i <= |es|
    decreases i
  {
    if i == b then Some(x)
    else
      var h := Holder(ss, es, x, b, i - 1);
      var next := if h.None? then h else Some(Next(ss[i - 1], es[i - 1], h.value));
      if next.Some? && next.value in ss[i].tree.nodes then next else None
  }

  ghost function Next(s: Snapshot, e: Incident, h: Id): Id {
    if e.Crash? && Grants(s, e.c, e.options, e.now) && h in s.tree.nodes && s.tree.nodes[h].parent == s.tree.nodes[e.c].parent
    then
      var p := s.tree.nodes[e.c].parent.value;
      if e.c in s.tree.nodes[p].order && h in s.tree.nodes[p].order then Heir(s.tree, p, e.c, e.strategy, h) else h
    else h
  }

  /// When the holder of the slot crashed and was restarted.
  ghost function SlotRestarts(ss: seq<Snapshot>, es: seq<Incident>, x: Id, b: nat, i: nat): seq<int>
    requires |ss| == |es| + 1 && b <= i <= |es|
    decreases i
  {
    if i == b then []
    else SlotRestarts(ss, es, x, b, i - 1) + Restart(ss[i - 1], es[i - 1], Holder(ss, es, x, b, i - 1))
  }

  ghost function Restart(s: Snapshot, e: Incident, h: Option<Id>): seq<int> {
    if e.Crash? && h == Some(e.c) && Grants(s, e.c, e.options, e.now) then [e.now] else []
  }

  lemma NextHolds(s: Snapshot, e: Incident, u: Snapshot, h: Id, p: Id, spec: Spec)
    requires Valid(s.tree) && Valid(u.tree) && Happens(s, e, u) && Holds(s.tree, h, p, spec) && Next(s, e, h) in u.tree.nodes
    ensures Holds(u.tree, Next(s, e, h), p, spec)
  {
    var t := s.tree;
    if e.Crash? && HasParent(t, e.c) {
      var q := t.nodes[e.c].parent.value;
      HolderIsListed(t, e.c, q, t.nodes[e.c].spec);
      if Grants(s, e.c, e.options, e.now) {
        if q == p {
          HolderIsListed(t, h, p, spec);
          HeirHolds(t, u.tree, p, e.c, e.strategy, h, spec);
        } else {
          OthersHold(t, u.tree, q, e.c, e.strategy, h, p, spec);
        }
      }
    }
  }

  /// A restart among the children of one parent changes nothing about the children of another that stay.
  lemma OthersHold(t: Tree, u: Tree, q: Id, c: Id, strategy: Strategy, h: Id, p: Id, spec: Spec)
    requires Valid(t) && q in t.nodes && IsChild(t, c, q) && Replaced(t, u, q, c, strategy)
    requires Holds(t, h, p, spec) && p != q && h in u.nodes
    ensures Holds(u, h, p, spec)
  {
    assert NodeOk(t, h);
    match strategy
    case OneForOne =>
    case OneForAll =>
    case RestForOne =>
  }

  lemma {:induction false} HolderHolds(ss: seq<Snapshot>, es: seq<Incident>, x: Id, b: nat, i: nat, p: Id, spec: Spec)
    requires History(ss, es) && b <= i <= |es| && Holds(ss[b].tree, x, p, spec)
    ensures Holder(ss, es, x, b, i).Some? ==> Holds(ss[i].tree, Holder(ss, es, x, b, i).value, p, spec)
    decreases i
  {
    if i > b && Holder(ss, es, x, b, i).Some? {
      HolderHolds(ss, es, x, b, i - 1, p, spec);
      NextHolds(ss[i - 1], es[i - 1], ss[i], Holder(ss, es, x, b, i - 1).value, p, spec);
    }
  }

  lemma SlotUnfolds(ss: seq<Snapshot>, es: seq<Incident>, x: Id, b: nat, i: nat, key: Key)
    requires |ss| == |es| + 1 && b < i <= |es|
    ensures SlotRestarts(ss, es, x, b, i) == SlotRestarts(ss, es, x, b, i - 1) + Restart(ss[i - 1], es[i - 1], Holder(ss, es, x, b, i - 1))
    ensures GrantTimes(ss, es, key, i) == GrantTimes(ss, es, key, i - 1) + Grant(ss[i - 1], es[i - 1], key)
  {
    hide Restart, Grant, Holder;
  }

  /// All holders of a slot are counted under one key, if the key outlives the id.
  lemma {:induction false} SlotIsPartOfKey(
    ss: seq<Snapshot>, es: seq<Incident>, x: Id, b: nat, i: nat, p: Id, spec: Spec, from: int, length: int)
    requires |ss| == |es| + 1 && History(ss, es) && b <= i <= |es| && Holds(ss[b].tree, x, p, spec) && Lasting(spec)
    ensures RI.Within(SlotRestarts(ss, es, x, b, i), from, length)
      <= RI.Within(GrantTimes(ss, es, (p, KeyOf(spec, x)), i), from, length)
    decreases i
  {
    if i == b {
      hide History, Holds, Grant, KeyOf, Lasting, GrantTimes;
    } else {
      hide *;
      SlotIsPartOfKey(ss, es, x, b, i - 1, p, spec, from, length);
      HolderHolds(ss, es, x, b, i - 1, p, spec);
      var s, e, h := ss[i - 1], es[i - 1], Holder(ss, es, x, b, i - 1);
      var key := (p, KeyOf(spec, x));
      SlotUnfolds(ss, es, x, b, i, key);
      HoldersKey(s, e, h, p, spec, x);
      SlotStep(s, e, h, key, SlotRestarts(ss, es, x, b, i - 1), GrantTimes(ss, es, key, i - 1), from, length);
    }
  }

  /// A holder's restart is one of its key.
  lemma HoldersKey(s: Snapshot, e: Incident, h: Option<Id>, p: Id, spec: Spec, x: Id)
    requires (h.Some? ==> Holds(s.tree, h.value, p, spec)) && Lasting(spec)
    ensures Restart(s, e, h) == [] || Restart(s, e, h) == Grant(s, e, (p, KeyOf(spec, x)))
  {
  }

  lemma SlotStep(s: Snapshot, e: Incident, h: Option<Id>, key: Key, slot: seq<int>, grants: seq<int>, from: int, length: int)
    requires Restart(s, e, h) == [] || Restart(s, e, h) == Grant(s, e, key)
    requires RI.Within(slot, from, length) <= RI.Within(grants, from, length)
    ensures RI.Within(slot + Restart(s, e, h), from, length) <= RI.Within(grants + Grant(s, e, key), from, length)
  {
    hide RI.Within, Grants;
    var now := if e.Crash? then e.now else 0;
    MoreWithin(slot, now, from, length);
    MoreWithin(grants, now, from, length);
  }

  lemma MoreWithin(ts: seq<int>, now: int, from: int, length: int)
    ensures RI.Within(ts + [now], from, length) == RI.Within(ts, from, length) + if from <= now <= from + length then 1 else 0
    ensures ts + [] == ts
  {
    assert (ts + [now])[..|ts|] == ts;
  }

  /// A slot over a run that begins without restart records: its first holder, and the options of its parent.
  ghost predicate Life(ss: seq<Snapshot>, es: seq<Incident>, x: Id, b: nat, p: Id, spec: Spec, o: RI.Options) {
    && History(ss, es) && InTime(es) && ss[0].records == map[]
    && b <= |es| && Holds(ss[b].tree, x, p, spec) && Under(ss, es, p, o)
  }

  /// However children crash, and whatever else happens to the tree, no closed interval of the length of the period holds
  /// more restarts of one slot than the bound, provided that its child has a name or arguments.
  lemma SlotIsLimited(ss: seq<Snapshot>, es: seq<Incident>, x: Id, b: nat, p: Id, spec: Spec, o: RI.Options)
    requires Life(ss, es, x, b, p, spec, o) && Lasting(spec)
    ensures RI.AtMost(SlotRestarts(ss, es, x, b, |es|), o.periodMs, RI.Bound(o))
  {
    var key := (p, KeyOf(spec, x));
    KeyIsAccounted(ss, es, key, o, |es|);
    CrashTimesAreOrdered(ss, es, key, |es|);
    RI.RestartsAreBounded(CrashTimes(ss, es, key, |es|), o);
    forall from ensures RI.Within(SlotRestarts(ss, es, x, b, |es|), from, o.periodMs) <= RI.Bound(o) {
      SlotIsPartOfKey(ss, es, x, b, |es|, p, spec, from, o.periodMs);
      assert RI.Within(GrantTimes(ss, es, key, |es|), from, o.periodMs) <= RI.Bound(o);
    }
  }

  // ---------------------------------------------------------------------------------------------
  // Children without a name or arguments

  /// One actor and one child, which has been restarted `n` times.
  function OneChild(spec: Spec, n: nat): Tree {
    Tree(map[0 := Node(None, spec, [n + 1]), n + 1 := Node(Some(0), spec, [])], n + 2)
  }

  function OneRestartEach(n: nat): map<Key, RI.Record> {
    if n == 0 then map[] else OneRestartEach(n - 1)[(0, OfId(n)) := RI.Record(1, 0)]
  }

  lemma {:induction false} KeyIsNew(n: nat, m: nat)
    requires m > n
    ensures (0, OfId(m)) !in OneRestartEach(n)
  {
    if n > 0 { KeyIsNew(n - 1, m); }
  }

  ghost function States(spec: Spec, n: nat): seq<Snapshot> {
    seq(n + 1, i requires 0 <= i <= n => OneState(spec, i))
  }

  ghost function Crashes(o: RI.Options, n: nat): seq<Incident> {
    seq(n, i requires 0 <= i < n => Crash(i + 1, OneForOne, o, 0))
  }

  lemma OneChildValid(spec: Spec, n: nat)
    ensures Valid(OneChild(spec, n)) && HasParent(OneChild(spec, n), n + 1)
  {
    var t := OneChild(spec, n);
    assert [n + 1][1..] == [];
    assert NodeOk(t, 0) && NodeOk(t, n + 1);
  }

  function OneState(spec: Spec, i: nat): Snapshot { Snapshot(OneChild(spec, i), OneRestartEach(i)) }

  lemma OneMoreRestart(spec: Spec, o: RI.Options, i: nat)
    requires !Lasting(spec) && o.maxRestarts >= 1 && o.periodMs >= 0
    ensures Grants(OneState(spec, i), i + 1, o, 0) && Crashed(OneState(spec, i), OneState(spec, i + 1), i + 1, OneForOne, o, 0)
    ensures Next(OneState(spec, i), Crash(i + 1, OneForOne, o, 0), i + 1) == i + 2
    ensures Restart(OneState(spec, i), Crash(i + 1, OneForOne, o, 0), Some(i + 1)) == [0]
  {
    var s, u := OneState(spec, i), OneState(spec, i + 1);
    KeyIsNew(i, i + 1);
    assert KeyIn(s.tree, i + 1) == (0, OfId(i + 1));
    assert u.records - {(0, OfId(i + 1))} == s.records - {(0, OfId(i + 1))};
    assert Without([i + 1], i + 1) == [];
    assert ReplacedAlone(s.tree, u.tree, 0, i + 1);
  }

  lemma UnnamedHistory(spec: Spec, o: RI.Options, n: nat)
    requires !Lasting(spec) && o.maxRestarts >= 1 && o.periodMs >= 0
    ensures Life(States(spec, n), Crashes(o, n), 1, 0, 0, spec, o)
  {
    UnnamedIsHistory(spec, o, n);
    FirstChild(spec, n);
    UnnamedCrashes(spec, o, n);
    hide History, Holds, InTime, Under, OneState;
  }

  lemma UnnamedIsHistory(spec: Spec, o: RI.Options, n: nat)
    requires !Lasting(spec) && o.maxRestarts >= 1 && o.periodMs >= 0
    ensures History(States(spec, n), Crashes(o, n))
  {
    var ss, es := States(spec, n), Crashes(o, n);
    hide OneChild, OneRestartEach, Crashed, Valid, HasParent, Grants, Next, Restart;
    forall i | 0 <= i < |ss| ensures Valid(ss[i].tree) { OneChildValid(spec, i); }
    forall i | 0 <= i < |es| ensures Happens(ss[i], es[i], ss[i + 1]) { OneMoreRestart(spec, o, i); }
  }

  lemma FirstChild(spec: Spec, n: nat)
    ensures States(spec, n)[0].records == map[] && Holds(States(spec, n)[0].tree, 1, 0, spec)
  {
  }

  lemma UnnamedCrashes(spec: Spec, o: RI.Options, n: nat)
    ensures InTime(Crashes(o, n)) && Under(States(spec, n), Crashes(o, n), 0, o)
  {
    hide OneState, HasParent;
  }

  lemma HolderUnfolds(ss: seq<Snapshot>, es: seq<Incident>, x: Id, b: nat, i: nat, h: Id)
    requires |ss| == |es| + 1 && b < i <= |es| && Holder(ss, es, x, b, i - 1) == Some(h)
    requires Next(ss[i - 1], es[i - 1], h) in ss[i].tree.nodes
    ensures Holder(ss, es, x, b, i) == Some(Next(ss[i - 1], es[i - 1], h))
  {
    hide Next;
  }

  lemma {:induction false} AlwaysRestarted(spec: Spec, o: RI.Options, n: nat, i: nat)
    requires !Lasting(spec) && o.maxRestarts >= 1 && o.periodMs >= 0 && i <= n
    ensures Holder(States(spec, n), Crashes(o, n), 1, 0, i) == Some(i + 1)
    ensures RI.Within(SlotRestarts(States(spec, n), Crashes(o, n), 1, 0, i), 0, o.periodMs) == i
  {
    var ss, es := States(spec, n), Crashes(o, n);
    if i > 0 {
      assert ss[i].tree.nodes.Keys == {0, i + 1};
      hide Next, Restart, Holder, SlotRestarts, RI.Within, OneChild, OneRestartEach, Grants, Crashed;
      AlwaysRestarted(spec, o, n, i - 1);
      OneMoreRestart(spec, o, i - 1);
      HolderUnfolds(ss, es, 1, 0, i, i);
      SlotUnfolds(ss, es, 1, 0, i, (0, OfId(0)));
      MoreWithin(SlotRestarts(ss, es, 1, 0, i - 1), 0, 0, o.periodMs);
    }
  }

  ghost predicate AlwaysLimited(spec: Spec, o: RI.Options, bound: int) {
    forall ss, es, x, b, p :: Life(ss, es, x, b, p, spec, o) ==> RI.AtMost(SlotRestarts(ss, es, x, b, |es|), o.periodMs, bound)
  }

  lemma NeverGranted(ss: seq<Snapshot>, es: seq<Incident>, key: Key, o: RI.Options, i: nat)
    requires History(ss, es) && Under(ss, es, key.0, o) && ss[0].records == map[] && i < |es| && o.maxRestarts < 1
    ensures Grant(ss[i], es[i], key) == []
  {
    KeyIsAccounted(ss, es, key, o, i + 1);
    RI.NoBudget(CrashTimes(ss, es, key, i + 1), o);
    hide History, Under, Grant, CrashTimes, RI.After, RI.Restarts;
    assert GrantTimes(ss, es, key, i + 1) == GrantTimes(ss, es, key, i) + Grant(ss[i], es[i], key);
  }

  lemma RestartIsGrant(s: Snapshot, e: Incident, h: Option<Id>, p: Id, spec: Spec) returns (key: Key)
    requires h.Some? ==> Holds(s.tree, h.value, p, spec)
    ensures key.0 == p && (Restart(s, e, h) == [] || Restart(s, e, h) == Grant(s, e, key))
  {
    key := (p, if h.Some? then KeyOf(spec, h.value) else OfId(0));
  }

  /// Without a budget nobody is restarted.
  lemma {:induction false} NobodyIsRestarted(
    ss: seq<Snapshot>, es: seq<Incident>, x: Id, b: nat, i: nat, p: Id, spec: Spec, o: RI.Options)
    requires |ss| == |es| + 1 && History(ss, es) && Under(ss, es, p, o) && ss[0].records == map[]
    requires b <= i <= |es| && Holds(ss[b].tree, x, p, spec) && o.maxRestarts < 1
    ensures SlotRestarts(ss, es, x, b, i) == []
    decreases i
  {
    if i == b {
      hide History, Under, Holds;
    } else {
      hide *;
      NobodyIsRestarted(ss, es, x, b, i - 1, p, spec, o);
      HolderHolds(ss, es, x, b, i - 1, p, spec);
      var key := RestartIsGrant(ss[i - 1], es[i - 1], Holder(ss, es, x, b, i - 1), p, spec);
      NeverGranted(ss, es, key, o, i - 1);
      SlotUnfolds(ss, es, x, b, i, key);
    }
  }

  /// The bound holds for a slot, however children crash, if and only if its child has a name or arguments, or there is no
  /// budget or no period at all. Otherwise every replacement is counted anew and there is no limit.
  lemma SlotIsLimitedIff(spec: Spec, o: RI.Options, bound: int)
    requires bound >= RI.Bound(o)
    ensures AlwaysLimited(spec, o, bound) <==> Lasting(spec) || o.maxRestarts < 1 || o.periodMs < 0
  {
    if Lasting(spec) || o.maxRestarts < 1 || o.periodMs < 0 {
      forall ss, es, x, b, p | Life(ss, es, x, b, p, spec, o)
        ensures RI.AtMost(SlotRestarts(ss, es, x, b, |es|), o.periodMs, bound)
      {
        SlotIsBounded(ss, es, x, b, p, spec, o);
        forall from ensures RI.Within(SlotRestarts(ss, es, x, b, |es|), from, o.periodMs) <= bound {
          assert RI.Within(SlotRestarts(ss, es, x, b, |es|), from, o.periodMs) <= RI.Bound(o);
        }
      }
    } else {
      var n := bound + 1;
      UnnamedHistory(spec, o, n);
      AlwaysRestarted(spec, o, n, n);
      assert RI.Within(SlotRestarts(States(spec, n), Crashes(o, n), 1, 0, n), 0, o.periodMs) > bound;
      assert !RI.AtMost(SlotRestarts(States(spec, n), Crashes(o, n), 1, 0, n), o.periodMs, bound);
    }
  }

  lemma SlotIsBounded(ss: seq<Snapshot>, es: seq<Incident>, x: Id, b: nat, p: Id, spec: Spec, o: RI.Options)
    requires Life(ss, es, x, b, p, spec, o) && (Lasting(spec) || o.maxRestarts < 1 || o.periodMs < 0)
    ensures RI.AtMost(SlotRestarts(ss, es, x, b, |es|), o.periodMs, RI.Bound(o))
  {
    if Lasting(spec) {
      SlotIsLimited(ss, es, x, b, p, spec, o);
    } else if o.maxRestarts < 1 {
      NobodyIsRestarted(ss, es, x, b, |es|, p, spec, o);
      forall from ensures RI.Within([], from, o.periodMs) <= 0 {}
    } else {
      forall from ensures RI.Within(SlotRestarts(ss, es, x, b, |es|), from, o.periodMs) <= 0 {
        RI.NothingWithin(SlotRestarts(ss, es, x, b, |es|), from, o.periodMs);
      }
    }
  }
}
