/// Actors with local children: what stopping a subtree removes, and in which order.

module Supervision {
  import opened Basics
  type Kind(==, !new)

  type Id = nat

  /// What an actor is spawned from: its class, its name, empty if it has none, and the text of its arguments, if it was
  /// given any.
  datatype Spec = Spec(kind: Kind, name: string, args: Option<string>)

  /// Under what the restarts of a child are counted, besides its parent.
  datatype ChildKey = Text(text: string) | OfId(id: Id)

  /// Its name if it has one, else its arguments if it has any, else its id.
  function KeyOf(spec: Spec, c: Id): ChildKey {
    if spec.name != "" then Text(spec.name) else if spec.args.Some? then Text(spec.args.value) else OfId(c)
  }

  /// `order` lists the children in the order in which they were started.
  datatype Node = Node(parent: Option<Id>, spec: Spec, order: seq<Id>)

  /// Ids are handed out in increasing order, so that no id is used twice.
  datatype Tree = Tree(nodes: map<Id, Node>, next: Id)

  predicate IsChild(t: Tree, c: Id, p: Id) { c in t.nodes && t.nodes[c].parent == Some(p) && p < c }

  /// The children listed are actors with this parent, which is older; an actor whose parent is there is listed by it.
  /// An actor whose parent was stopped alone has a parent that is gone.
  ghost predicate NodeOk(t: Tree, x: Id) {
    && x in t.nodes && x < t.next
    && (forall c :: c in t.nodes[x].order ==> IsChild(t, c, x))
    && Distinct(t.nodes[x].order)
    && (t.nodes[x].parent.Some? ==>
          var p := t.nodes[x].parent.value;
          p < x && (p in t.nodes ==> x in t.nodes[p].order))
  }

  ghost predicate Valid(t: Tree) { forall x :: x in t.nodes ==> NodeOk(t, x) }

  /// `x` is `a` or below it.
  predicate Under(t: Tree, x: Id, a: Id)
    decreases x
  {
    x == a || (x in t.nodes && t.nodes[x].parent.Some? &&
      var p := t.nodes[x].parent.value; p < x && p in t.nodes && Under(t, p, a))
  }

  predicate UnderAny(t: Tree, x: Id, gone: set<Id>) { exists a :: a in gone && Under(t, x, a) }

  /// What is left once `a` and all below it are gone.
  function Removed(t: Tree, a: Id): Tree
    requires a in t.nodes
  {
    Tree(map x | x in t.nodes && !Under(t, x, a) ::
           if t.nodes[a].parent == Some(x) then t.nodes[x].(order := Without(t.nodes[x].order, a)) else t.nodes[x],
         t.next)
  }

  /// What is left while children of `p` are being stopped: those in `gone` are, with all below them.
  function Cut(t: Tree, p: Id, gone: set<Id>, order: seq<Id>): Tree {
    Tree(map x | x in t.nodes && !UnderAny(t, x, gone) :: if x == p then t.nodes[x].(order := order) else t.nodes[x], t.next)
  }

  function SetOf(s: seq<Id>): set<Id> { set x | x in s }

  lemma SetOfEnds(s: seq<Id>, i: nat)
    requires i < |s|
    ensures SetOf(s[i + 1..]) + {s[i]} == SetOf(s[i..]) && SetOf(s[..i]) + {s[i]} == SetOf(s[..i + 1])
  {
    assert s[i..] == [s[i]] + s[i + 1..] && s[..i + 1] == s[..i] + [s[i]];
  }

  lemma SetOfNone()
    ensures SetOf([]) == {}
  {
  }

  /// The actors of a subtree, children before parents, elder children first.
  function PostOrder(t: Tree, a: Id): seq<Id>
    decreases t.next - a, 0, 0
  {
    if a in t.nodes && a < t.next then PostOrders(t, a, 0) + [a] else []
  }

  function PostOrders(t: Tree, a: Id, i: nat): seq<Id>
    requires a in t.nodes && a < t.next
    decreases t.next - a - 1, 1, |t.nodes[a].order| - i
  {
    var kids := t.nodes[a].order;
    if i >= |kids| then []
    else (if a < kids[i] then PostOrder(t, kids[i]) else []) + PostOrders(t, a, i + 1)
  }

  // ---------------------------------------------------------------------------------------------
  // Under

  lemma {:induction false} UnderTransitive(t: Tree, x: Id, c: Id, a: Id)
    requires Under(t, x, c) && Under(t, c, a)
    ensures Under(t, x, a)
    decreases x
  {
    if x != c { UnderTransitive(t, t.nodes[x].parent.value, c, a); }
  }

  lemma {:induction false} UnderIsYounger(t: Tree, x: Id, a: Id)
    requires Under(t, x, a)
    ensures a <= x && (a in t.nodes ==> x in t.nodes)
    decreases x
  {
    if x != a { UnderIsYounger(t, t.nodes[x].parent.value, a); }
  }

  /// Two actors above the same one are above one another.
  lemma {:induction false} UnderLinear(t: Tree, x: Id, a: Id, b: Id)
    requires Under(t, x, a) && Under(t, x, b)
    ensures Under(t, a, b) || Under(t, b, a)
    decreases x
  {
    if x != a && x != b { UnderLinear(t, t.nodes[x].parent.value, a, b); }
  }

  /// Below different children of one actor are different actors.
  lemma {:induction false} SiblingsApart(t: Tree, x: Id, a: Id, b: Id, p: Id)
    requires IsChild(t, a, p) && IsChild(t, b, p) && a != b && Under(t, x, a)
    ensures !Under(t, x, b)
  {
    if Under(t, x, b) {
      UnderLinear(t, x, a, b);
      if Under(t, a, b) { UnderIsYounger(t, p, b); } else { UnderIsYounger(t, p, a); }
    }
  }

  /// Below an actor is the actor itself and what is below its children.
  lemma {:induction false} UnderIsBelowAChild(t: Tree, x: Id, a: Id)
    requires Valid(t) && a in t.nodes
    ensures Under(t, x, a) <==> x == a || exists c :: c in t.nodes[a].order && Under(t, x, c)
    decreases x
  {
    if Under(t, x, a) && x != a {
      var p := t.nodes[x].parent.value;
      assert NodeOk(t, x);
      if p == a {
        assert x in t.nodes[a].order && Under(t, x, x);
      } else {
        UnderIsBelowAChild(t, p, a);
        var c :| c in t.nodes[a].order && Under(t, p, c);
        assert Under(t, x, c);
      }
    }
    if c :| c in t.nodes[a].order && Under(t, x, c) {
      assert NodeOk(t, a);
      assert IsChild(t, c, a);
      assert Under(t, c, a);
      UnderTransitive(t, x, c, a);
    }
  }

  // ---------------------------------------------------------------------------------------------
  // Part of the children stopped

  ghost predicate Children(t: Tree, p: Id, s: set<Id>) { forall c :: c in s ==> IsChild(t, c, p) }

  /// `order` lists the children of `p` that are not in `gone`.
  ghost predicate Remaining(t: Tree, p: Id, gone: set<Id>, order: seq<Id>) {
    && Children(t, p, gone) && Distinct(order)
    && (forall c :: c in order ==> IsChild(t, c, p) && c !in gone)
    && (forall c :: IsChild(t, c, p) && c !in gone ==> c in order)
  }

  lemma AllRemain(t: Tree, p: Id)
    requires Valid(t) && p in t.nodes
    ensures Remaining(t, p, {}, t.nodes[p].order) && Cut(t, p, {}, t.nodes[p].order) == t
  {
    forall c | IsChild(t, c, p) ensures c in t.nodes[p].order { assert NodeOk(t, c); }
    assert Cut(t, p, {}, t.nodes[p].order).nodes == t.nodes;
  }

  lemma KeptIffNotUnder(t: Tree, p: Id, gone: set<Id>, c: Id)
    requires Children(t, p, gone) && IsChild(t, c, p) && c !in gone
    ensures !UnderAny(t, c, gone) && !UnderAny(t, p, gone)
  {
    forall g | g in gone ensures !Under(t, p, g) && !Under(t, c, g) {
      if Under(t, p, g) { UnderIsYounger(t, p, g); }
      if Under(t, c, g) { UnderIsYounger(t, p, g); }
    }
  }

  lemma CutNodeOk(t: Tree, p: Id, gone: set<Id>, order: seq<Id>, x: Id)
    requires Valid(t) && p in t.nodes && Remaining(t, p, gone, order) && x in t.nodes && !UnderAny(t, x, gone)
    ensures NodeOk(Cut(t, p, gone, order), x)
  {
    var u := Cut(t, p, gone, order);
    assert NodeOk(t, x);
    forall c | c in u.nodes[x].order ensures IsChild(u, c, x) {
      assert IsChild(t, c, x);
      if x == p { KeptIffNotUnder(t, p, gone, c); } else {
        forall g | g in gone ensures !Under(t, c, g) {
          assert !Under(t, x, g);
        }
      }
    }
    if t.nodes[x].parent.Some? && t.nodes[x].parent.value == p && p in u.nodes {
      assert IsChild(t, x, p);
      assert Under(t, x, x);
    }
  }

  lemma CutValid(t: Tree, p: Id, gone: set<Id>, order: seq<Id>)
    requires Valid(t) && p in t.nodes && Remaining(t, p, gone, order)
    ensures Valid(Cut(t, p, gone, order))
  {
    forall x | x in Cut(t, p, gone, order).nodes ensures NodeOk(Cut(t, p, gone, order), x) {
      CutNodeOk(t, p, gone, order, x);
    }
  }

  lemma {:induction false} CutUnder(t: Tree, p: Id, gone: set<Id>, order: seq<Id>, x: Id, k: Id)
    requires Children(t, p, gone) && IsChild(t, k, p) && k !in gone && x in Cut(t, p, gone, order).nodes
    ensures Under(Cut(t, p, gone, order), x, k) <==> Under(t, x, k)
    decreases x
  {
    var u := Cut(t, p, gone, order);
    if x != k && t.nodes[x].parent.Some? {
      var q := t.nodes[x].parent.value;
      if q < x && q in t.nodes {
        if Under(t, q, k) {
          forall g | g in gone ensures !Under(t, q, g) { SiblingsApart(t, q, k, g, p); }
          assert q in u.nodes;
        }
        if q in u.nodes { CutUnder(t, p, gone, order, q, k); }
      }
    }
  }

  /// Stopping one more child.
  lemma CutStep(t: Tree, p: Id, gone: set<Id>, order: seq<Id>, k: Id)
    requires Valid(t) && p in t.nodes && Remaining(t, p, gone, order) && k in order
    ensures k in Cut(t, p, gone, order).nodes
    ensures Removed(Cut(t, p, gone, order), k) == Cut(t, p, gone + {k}, Without(order, k))
    ensures PostOrder(Cut(t, p, gone, order), k) == PostOrder(t, k)
  {
    KeptIffNotUnder(t, p, gone, k);
    CutOneMore(t, p, gone, order, k);
    CutKeepsBelow(t, p, gone, order, k);
    hide Under, UnderAny, Cut, Removed;
    PostOrderSame(t, Cut(t, p, gone, order), k);
  }

  lemma CutOneMore(t: Tree, p: Id, gone: set<Id>, order: seq<Id>, k: Id)
    requires Children(t, p, gone) && IsChild(t, k, p) && k !in gone && k in Cut(t, p, gone, order).nodes
    ensures Removed(Cut(t, p, gone, order), k) == Cut(t, p, gone + {k}, Without(order, k))
  {
    var u := Cut(t, p, gone, order);
    forall x | x in t.nodes ensures x in u.nodes && !Under(u, x, k) <==> !UnderAny(t, x, gone + {k}) {
      if x in u.nodes { CutUnder(t, p, gone, order, x, k); }
      if UnderAny(t, x, gone) {
        var g :| g in gone && Under(t, x, g);
        assert g in gone + {k};
      } else if Under(t, x, k) {
        assert k in gone + {k};
      }
    }
    hide Under, UnderAny, Without;
    assert Removed(u, k).nodes == Cut(t, p, gone + {k}, Without(order, k)).nodes;
  }

  lemma CutKeepsBelow(t: Tree, p: Id, gone: set<Id>, order: seq<Id>, k: Id)
    requires Children(t, p, gone) && IsChild(t, k, p) && k !in gone
    ensures SameBelow(t, Cut(t, p, gone, order), k)
  {
    forall y | y in t.nodes && Under(t, y, k) ensures !UnderAny(t, y, gone) && y != p {
      forall g | g in gone ensures !Under(t, y, g) { SiblingsApart(t, y, k, g, p); }
      UnderIsYounger(t, y, k);
    }
  }

  lemma RemainingStep(t: Tree, p: Id, gone: set<Id>, order: seq<Id>, i: nat)
    requires Remaining(t, p, gone, order) && i < |order|
    ensures Remaining(t, p, gone + {order[i]}, Without(order, order[i]))
  {
    WithoutKeeps(order, order[i]);
    assert order[i] in order;
  }

  lemma RemovedValid(t: Tree, a: Id)
    requires Valid(t) && a in t.nodes
    ensures Valid(Removed(t, a))
  {
    forall x | x in Removed(t, a).nodes ensures NodeOk(Removed(t, a), x) { RemovedNodeOk(t, a, x); }
  }

  lemma RemovedNodeOk(t: Tree, a: Id, x: Id)
    requires Valid(t) && a in t.nodes && x in t.nodes && !Under(t, x, a)
    ensures NodeOk(Removed(t, a), x)
  {
    var u := Removed(t, a);
    assert NodeOk(t, x) && NodeOk(t, a);
    var order := t.nodes[x].order;
    if t.nodes[a].parent == Some(x) {
      WithoutKeeps(order, a);
    }
    forall c | c in u.nodes[x].order ensures IsChild(u, c, x) {
      assert IsChild(t, c, x);
    }
    if t.nodes[x].parent.Some? && t.nodes[x].parent.value in u.nodes {
      var q := t.nodes[x].parent.value;
      if t.nodes[a].parent == Some(q) {
        assert NodeOk(t, q);
        WithoutKeeps(t.nodes[q].order, a);
        assert Under(t, a, a);
      }
    }
  }

  ghost predicate SameBelow(t: Tree, u: Tree, a: Id) {
    forall y :: y in t.nodes && Under(t, y, a) ==> y in u.nodes && u.nodes[y].order == t.nodes[y].order
  }

  lemma {:induction false} PostOrderSame(t: Tree, u: Tree, a: Id)
    requires Valid(t) && t.next == u.next && a in t.nodes && SameBelow(t, u, a)
    ensures PostOrder(u, a) == PostOrder(t, a)
    decreases t.next - a, 0, 0
  {
    assert NodeOk(t, a) && Under(t, a, a);
    PostOrdersSame(t, u, a, 0);
  }

  lemma {:induction false} PostOrdersSame(t: Tree, u: Tree, a: Id, i: nat)
    requires Valid(t) && t.next == u.next && a in t.nodes && a < t.next && SameBelow(t, u, a) && a in u.nodes
    ensures PostOrders(u, a, i) == PostOrders(t, a, i)
    decreases t.next - a - 1, 1, |t.nodes[a].order| - i
  {
    var kids := t.nodes[a].order;
    assert Under(t, a, a);
    if i < |kids| {
      assert NodeOk(t, a) && IsChild(t, kids[i], a);
      forall y | y in t.nodes && Under(t, y, kids[i]) ensures Under(t, y, a) {
        assert Under(t, kids[i], a);
        UnderTransitive(t, y, kids[i], a);
      }
      PostOrderSame(t, u, kids[i]);
      PostOrdersSame(t, u, a, i + 1);
    }
  }

  /// The actors with `a` struck off its parent's list.
  function StruckOff(nodes: map<Id, Node>, a: Id): map<Id, Node>
    requires a in nodes
  {
    map x | x in nodes ::
      if nodes[a].parent == Some(x) then nodes[x].(order := Without(nodes[x].order, a)) else nodes[x]
  }

  lemma UnderItselfOrAChild(t: Tree, a: Id, kids: set<Id>, x: Id)
    requires Valid(t) && a in t.nodes && kids == SetOf(t.nodes[a].order)
    ensures Under(t, x, a) <==> x == a || UnderAny(t, x, kids)
    ensures !UnderAny(t, a, kids)
  {
    UnderIsBelowAChild(t, x, a);
    if UnderAny(t, x, kids) {
      var c :| c in kids && Under(t, x, c);
      assert c in t.nodes[a].order;
    }
    if UnderAny(t, a, kids) {
      var c :| c in kids && Under(t, a, c);
      assert NodeOk(t, a) && IsChild(t, c, a);
      UnderIsYounger(t, a, c);
    }
  }

  /// When all the children are gone, only the actor itself is left to remove.
  lemma OnlyItselfIsLeft(t: Tree, a: Id)
    requires Valid(t) && a in t.nodes
    ensures var u := Cut(t, a, SetOf(t.nodes[a].order), []);
      a in u.nodes && StruckOff(u.nodes, a) - {a} == Removed(t, a).nodes
  {
    hide Under, UnderAny, Valid, NodeOk, Without;
    var kids := SetOf(t.nodes[a].order);
    forall x ensures Under(t, x, a) <==> x == a || UnderAny(t, x, kids) { UnderItselfOrAChild(t, a, kids, x); }
    UnderItselfOrAChild(t, a, kids, a);
    var u := Cut(t, a, kids, []);
    assert StruckOff(u.nodes, a) - {a} == Removed(t, a).nodes;
  }

  // ---------------------------------------------------------------------------------------------
  // The order of a subtree

  /// A subtree's order lists the subtree: each actor once, and none after its parent.
  lemma {:induction false} PostOrderHasSubtree(t: Tree, a: Id, x: Id)
    requires Valid(t) && a in t.nodes
    ensures x in PostOrder(t, a) <==> x in t.nodes && Under(t, x, a)
    decreases t.next - a, 0, 0
  {
    assert NodeOk(t, a);
    PostOrdersHave(t, a, 0, x);
    UnderIsBelowAChild(t, x, a);
    if x in t.nodes && Under(t, x, a) && x != a {
      var c :| c in t.nodes[a].order && Under(t, x, c);
      var j :| 0 <= j < |t.nodes[a].order| && t.nodes[a].order[j] == c;
    }
    UnderIsYoungerIfThere(t, x, a);
  }

  lemma UnderIsYoungerIfThere(t: Tree, x: Id, a: Id)
    requires a in t.nodes
    ensures Under(t, x, a) ==> x in t.nodes
  {
    if Under(t, x, a) { UnderIsYounger(t, x, a); }
  }

  lemma {:induction false} PostOrdersHave(t: Tree, a: Id, i: nat, x: Id)
    requires Valid(t) && a in t.nodes && a < t.next
    ensures x in PostOrders(t, a, i) <==> exists j :: i <= j < |t.nodes[a].order| && Under(t, x, t.nodes[a].order[j])
    decreases t.next - a - 1, 1, |t.nodes[a].order| - i
  {
    var kids := t.nodes[a].order;
    if i < |kids| {
      assert NodeOk(t, a) && IsChild(t, kids[i], a);
      PostOrderHasSubtree(t, kids[i], x);
      UnderIsYoungerIfThere(t, x, kids[i]);
      PostOrdersHave(t, a, i + 1, x);
    }
  }

  /// No actor of `s` comes twice, and none comes after its parent.
  ghost predicate ChildrenFirst(t: Tree, s: seq<Id>) {
    && (forall x :: x in s ==> x in t.nodes)
    && (forall i, j :: 0 <= i < j < |s| ==> s[i] != s[j] && t.nodes[s[j]].parent != Some(s[i]))
  }

  lemma {:induction false} PostOrderIsChildrenFirst(t: Tree, a: Id)
    requires Valid(t) && a in t.nodes
    ensures ChildrenFirst(t, PostOrder(t, a))
    decreases t.next - a, 0, 0
  {
    assert NodeOk(t, a);
    PostOrdersAreChildrenFirst(t, a, 0);
    var l := PostOrders(t, a, 0);
    assert PostOrder(t, a) == l + [a];
    forall x | x in l ensures x > a {
      PostOrdersHave(t, a, 0, x);
      var j :| 0 <= j < |t.nodes[a].order| && Under(t, x, t.nodes[a].order[j]);
      assert IsChild(t, t.nodes[a].order[j], a);
      UnderIsYounger(t, x, t.nodes[a].order[j]);
    }
    forall i | 0 <= i < |l| ensures l[i] != a && t.nodes[a].parent != Some(l[i]) { assert l[i] in l; }
  }

  lemma {:induction false} PostOrdersAreChildrenFirst(t: Tree, a: Id, i: nat)
    requires Valid(t) && a in t.nodes && a < t.next
    ensures ChildrenFirst(t, PostOrders(t, a, i))
    decreases t.next - a - 1, 1, |t.nodes[a].order| - i
  {
    var kids := t.nodes[a].order;
    if i < |kids| {
      assert NodeOk(t, a) && IsChild(t, kids[i], a);
      var l, r := PostOrder(t, kids[i]), PostOrders(t, a, i + 1);
      PostOrderIsChildrenFirst(t, kids[i]);
      PostOrdersAreChildrenFirst(t, a, i + 1);
      forall x, y | x in l && y in r ensures x != y && t.nodes[y].parent != Some(x) {
        LaterSubtreesApart(t, a, i, x, y);
      }
    }
  }

  lemma LaterSubtreesApart(t: Tree, a: Id, i: nat, x: Id, y: Id)
    requires Valid(t) && a in t.nodes && a < t.next && i < |t.nodes[a].order|
    requires x in PostOrder(t, t.nodes[a].order[i]) && y in PostOrders(t, a, i + 1) && y in t.nodes
    ensures x != y && t.nodes[y].parent != Some(x)
  {
    var kids := t.nodes[a].order;
    assert NodeOk(t, a) && IsChild(t, kids[i], a) && NodeOk(t, y);
    PostOrderHasSubtree(t, kids[i], x);
    PostOrdersHave(t, a, i + 1, y);
    var j :| i + 1 <= j < |kids| && Under(t, y, kids[j]);
    assert IsChild(t, kids[j], a);
    DistinctAt(kids, i);
    assert kids[j] in kids[i + 1..];
    hide Distinct;
    SiblingsApart(t, y, kids[j], kids[i], a);
  }
}
