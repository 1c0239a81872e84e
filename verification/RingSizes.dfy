/// The sizes of rings: powers of two, computed by shifts and ors of a 32-bit word.

module RingSizes {
  import opened Basics

  /// The least power of two that is at least `n`, and 0 for 0.
  function NextPow2(n: nat): (p: nat)
    ensures n <= p && (n > 0 ==> p < 2 * n)
  {
    if n <= 1 then n else 2 * NextPow2((n + 1) / 2)
  }

  lemma {:induction false} NextPow2IsLeast(n: nat)
    requires n > 0
    ensures PowerOfTwo(NextPow2(n)) && forall q: nat :: PowerOfTwo(q) && n <= q ==> NextPow2(n) <= q
  {
    if n > 1 {
      var half := (n + 1) / 2;
      NextPow2IsLeast(half);
      assert 2 * NextPow2(half) / 2 == NextPow2(half);
      forall q: nat | PowerOfTwo(q) && n <= q ensures NextPow2(n) <= q { assert PowerOfTwo(q / 2) && half <= q / 2; }
    }
  }

  /// The number as the shifts and ors of a 32-bit word compute it.
  function SmearedNextPow2(n: bv32): bv32 {
    var v := n - 1;
    var v := v | (v >> 1);
    var v := v | (v >> 2);
    var v := v | (v >> 4);
    var v := v | (v >> 8);
    var v := v | (v >> 16);
    v + 1
  }

  function Number(a: bv32): nat { a as nat }

  lemma Doubled(h: bv32)
    requires h < 0x8000_0000
    ensures Number(h << 1) == 2 * Number(h)
  {
  }

  lemma Twofold(a: bv32, h: bv32)
    requires a == h << 1 && h < 0x8000_0000
    ensures Number(a) == 2 * Number(h)
  {
    hide Number;
    Doubled(h);
  }

  lemma DoubledAndOne(h: bv32)
    requires h < 0x8000_0000
    ensures Number((h << 1) | 1) == 2 * Number(h) + 1
  {
  }

  lemma LastBit(a: bv32)
    ensures a & 1 != 1 ==> a == (a >> 1) << 1
    ensures a & 1 == 1 ==> a == ((a >> 1) << 1) | 1
    ensures a >> 1 < 0x8000_0000
  {
  }

  /// The number a word stands for, by its upper bits and its last bit.
  lemma NumberOf(a: bv32)
    ensures Number(a) == 2 * Number(a >> 1) + if a & 1 == 1 then 1 else 0
  {
    hide Number;
    LastBit(a);
    Doubled(a >> 1);
    DoubledAndOne(a >> 1);
  }

  lemma Carry(a: bv32)
    requires a < 0xFFFF_FFFF
    ensures a & 1 == 1 ==> (a + 1) & 1 == 0 && (a + 1) >> 1 == (a >> 1) + 1 && a >> 1 < 0xFFFF_FFFF
    ensures a & 1 != 1 ==> (a + 1) & 1 == 1 && (a + 1) >> 1 == a >> 1
  {
  }

  lemma {:induction false} NumberOfNext(a: bv32)
    requires a < 0xFFFF_FFFF
    ensures Number(a + 1) == Number(a) + 1
    decreases Number(a)
  {
    hide Number;
    Carry(a);
    NumberOf(a);
    NumberOf(a + 1);
    if a & 1 == 1 { NumberOfNext(a >> 1); }
  }

  lemma SmallNumbers()
    ensures Number(0) == 0 && Number(1) == 1
  {
  }

  /// Smearing a word and smearing its upper half.
  lemma SmearedHalf(n: bv32)
    requires 1 < n <= 0x4000_0000
    ensures SmearedNextPow2(n) == SmearedNextPow2((n + 1) >> 1) << 1
    ensures SmearedNextPow2((n + 1) >> 1) < 0x8000_0000
  {
  }

  lemma {:induction false} PositiveNumber(n: bv32)
    requires n != 0
    ensures Number(n) > 0
  {
  }

  lemma NumberIsLarger(n: bv32)
    requires 1 < n
    ensures Number(n) > 1
  {
    hide Number;
    NumberOf(n);
    LargerThanOne(n);
    PositiveNumber(n >> 1);
  }

  lemma NotTheLast(n: bv32)
    requires n <= 0x4000_0000
    ensures n < 0xFFFF_FFFF
  {
  }

  lemma NumberOfHalf(n: bv32)
    requires 1 < n <= 0x4000_0000
    ensures Number((n + 1) >> 1) == (Number(n) + 1) / 2 && Number(n) > 1
  {
    hide Number;
    NumberIsLarger(n);
    NotTheLast(n);
    NumberOfNext(n);
    HalfOfNumber(n + 1);
  }

  lemma HalfOfNumber(m: bv32)
    ensures Number(m >> 1) == Number(m) / 2
  {
    hide Number;
    NumberOf(m);
  }

  lemma LargerThanOne(n: bv32)
    requires 1 < n
    ensures n >> 1 != 0
  {
  }

  lemma HalfInRange(n: bv32)
    requires 1 < n <= 0x4000_0000
    ensures 1 <= (n + 1) >> 1 <= 0x4000_0000
  {
  }

  lemma NumberOfSmeared(n: bv32, half: bv32)
    requires SmearedNextPow2(n) == SmearedNextPow2(half) << 1 && SmearedNextPow2(half) < 0x8000_0000
    ensures Number(SmearedNextPow2(n)) == 2 * Number(SmearedNextPow2(half))
  {
    hide Number, SmearedNextPow2;
    Twofold(SmearedNextPow2(n), SmearedNextPow2(half));
  }

  /// The smearing computes the least power of two, for every size a ring can be asked for.
  lemma {:induction false} SmearedIsNextPow2(n: bv32)
    requires 1 <= n <= 0x4000_0000
    ensures Number(SmearedNextPow2(n)) == NextPow2(Number(n))
    decreases Number(n)
  {
    hide Number, SmearedNextPow2;
    if n == 1 {
      SmallNumbers();
      SmearedOne();
    } else {
      var half := (n + 1) >> 1;
      HalfInRange(n);
      NumberOfHalf(n);
      SmearedHalf(n);
      NumberOfSmeared(n, half);
      assert Number(half) < Number(n);
      SmearedIsNextPow2(half);
    }
  }

  lemma SmearedOne()
    ensures SmearedNextPow2(1) == 1
  {
  }
}
