/// Small types, and lists without repetitions, that several modules share.

module Basics {
  datatype Option<+T> = None | Some(value: T)

  function Min(a: int, b: int): int { if a <= b then a else b }

  function Max(a: int, b: int): int { if a >= b then a else b }

  predicate PowerOfTwo(p: nat) { p == 1 || (p > 1 && p % 2 == 0 && PowerOfTwo(p / 2)) }

  // ---------------------------------------------------------------------------------------------
  // Lists without repetitions

  ghost predicate Distinct<T>(s: seq<T>) {
    s == [] || (s[0] !in s[1..] && Distinct(s[1..]))
  }

  /// The list without the first `a` in it.
  function Without<T(==)>(s: seq<T>, a: T): seq<T> {
    if s == [] then [] else if s[0] == a then s[1..] else [s[0]] + Without(s[1..], a)
  }

  /// Where `a` comes first.
  function Place<T(==)>(s: seq<T>, a: T): (i: nat)
    requires a in s
    ensures i < |s| && s[i] == a
  {
    if s[0] == a then 0 else 1 + Place(s[1..], a)
  }

  lemma {:induction false} DistinctAppend<T>(s: seq<T>, a: T)
    requires Distinct(s) && a !in s
    ensures Distinct(s + [a])
  {
    if s == [] {
      assert (s + [a])[1..] == [];
    } else {
      assert (s + [a])[1..] == s[1..] + [a];
      DistinctAppend(s[1..], a);
    }
  }

  lemma {:induction false} DistinctAt<T>(s: seq<T>, i: nat)
    requires Distinct(s) && i < |s|
    ensures s[i] !in s[..i] && s[i] !in s[i + 1..]
  {
    if i > 0 {
      DistinctAt(s[1..], i - 1);
      assert s[..i] == [s[0]] + s[1..][..i - 1];
      assert s[i] in s[1..];
      assert s[1..][i..] == s[i + 1..];
    }
  }

  lemma {:induction false} PlaceIs<T>(s: seq<T>, i: nat)
    requires Distinct(s) && i < |s|
    ensures Place(s, s[i]) == i
  {
    if i > 0 {
      assert s[1..][i - 1] == s[i] && s[i] in s[1..];
      PlaceIs(s[1..], i - 1);
    }
  }

  lemma {:induction false} WithoutIs<T>(s: seq<T>, i: nat)
    requires Distinct(s) && i < |s|
    ensures Without(s, s[i]) == s[..i] + s[i + 1..]
  {
    if i > 0 {
      assert s[1..][i - 1] == s[i] && s[i] in s[1..];
      WithoutIs(s[1..], i - 1);
      assert [s[0]] + s[1..][..i - 1] == s[..i];
    }
  }

  lemma {:induction false} WithoutHas<T>(s: seq<T>, a: T, c: T)
    requires Distinct(s)
    ensures c in Without(s, a) <==> c in s && c != a
  {
    if s != [] {
      assert s == [s[0]] + s[1..];
      WithoutHas(s[1..], a, c);
    }
  }

  lemma {:induction false} WithoutIsDistinct<T>(s: seq<T>, a: T)
    requires Distinct(s)
    ensures Distinct(Without(s, a))
  {
    if s != [] && s[0] != a {
      WithoutIsDistinct(s[1..], a);
      WithoutHas(s[1..], a, s[0]);
      assert ([s[0]] + Without(s[1..], a))[1..] == Without(s[1..], a);
    }
  }

  lemma WithoutKeeps<T(!new)>(s: seq<T>, a: T)
    requires Distinct(s)
    ensures Distinct(Without(s, a)) && forall c :: c in Without(s, a) <==> c in s && c != a
  {
    WithoutIsDistinct(s, a);
    forall c { WithoutHas(s, a, c); }
  }
}
