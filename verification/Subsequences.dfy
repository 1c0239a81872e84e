/// A sequence obtained from another by leaving elements out.

module Subsequences {

  ghost predicate Subsequence<T(!new)>(a: seq<T>, b: seq<T>) {
    a == [] || (b != [] &&
      ((a[|a| - 1] == b[|b| - 1] && Subsequence(a[..|a| - 1], b[..|b| - 1])) || Subsequence(a, b[..|b| - 1])))
  }

  lemma {:induction false} Append<T(!new)>(a: seq<T>, b: seq<T>, c: seq<T>)
    requires Subsequence(a, b)
    ensures Subsequence(a + c, b + c)
  {
    if c == [] {
      assert a + c == a && b + c == b;
    } else {
      var n := |c| - 1;
      Append(a, b, c[..n]);
      assert (a + c)[..|a + c| - 1] == a + c[..n] && (b + c)[..|b + c| - 1] == b + c[..n];
    }
  }

  lemma {:induction false} Extend<T(!new)>(a: seq<T>, b: seq<T>, c: seq<T>)
    requires Subsequence(a, b)
    ensures Subsequence(a, b + c)
  {
    if c == [] {
      assert b + c == b;
    } else {
      Extend(a, b, c[..|c| - 1]);
      assert (b + c)[..|b + c| - 1] == b + c[..|c| - 1];
    }
  }

  lemma {:induction false} Transitive<T(!new)>(a: seq<T>, b: seq<T>, c: seq<T>)
    requires Subsequence(a, b) && Subsequence(b, c)
    ensures Subsequence(a, c)
    decreases |c|
  {
    if a != [] {
      var a', b', c' := a[..|a| - 1], b[..|b| - 1], c[..|c| - 1];
      if Subsequence(b, c') {
        Transitive(a, b, c');
      } else if a[|a| - 1] == b[|b| - 1] && Subsequence(a', b') {
        Transitive(a', b', c');
      } else {
        Transitive(a, b', c');
      }
    }
  }

  lemma {:induction false} Reflexive<T(!new)>(a: seq<T>)
    ensures Subsequence(a, a)
  {
    if a != [] { Reflexive(a[..|a| - 1]); }
  }

  /// Leaving out a middle part.
  lemma {:induction false} Cut<T(!new)>(x: seq<T>, y: seq<T>, z: seq<T>, b: seq<T>)
    requires Subsequence(x + y + z, b)
    ensures Subsequence(x + z, b)
  {
    Reflexive(x);
    Extend(x, x, y);
    Append(x, x + y, z);
    Transitive(x + z, x + y + z, b);
  }

  /// Nothing left out means equal.
  lemma {:induction false} SameLength<T(!new)>(a: seq<T>, b: seq<T>)
    requires Subsequence(a, b)
    ensures |a| <= |b|
    ensures |a| == |b| ==> a == b
    decreases |b|
  {
    if a != [] {
      var a', b' := a[..|a| - 1], b[..|b| - 1];
      if a[|a| - 1] == b[|b| - 1] && Subsequence(a', b') {
        SameLength(a', b');
        assert a == a' + [a[|a| - 1]] && b == b' + [b[|b| - 1]];
      } else {
        SameLength(a, b');
      }
    }
  }
}
