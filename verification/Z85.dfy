/// The Z85 text encoding of binary keys (ZeroMQ RFC 32), with the 32-bit arithmetic of its implementation.

module Z85 {
  import opened Basics

  datatype Result<+T> = Ok(value: T) | Err(error: string)

  newtype byte = x: int | 0 <= x < 0x100

  const DIGITS := "0123456789"
  const LOWER := "abcdefghijklmnopqrstuvwxyz"
  const UPPER := "ABCDEFGHIJKLMNOPQRSTUVWXYZ"
  const SIGNS := ".-:+=^!/*?&<>()[]{}@%$#"

  function Alphabet(): (s: string)
    ensures |s| == 85
  {
    DIGITS + LOWER + UPPER + SIGNS
  }

  function CharOf(i: nat): char
    requires i < 85
  {
    Alphabet()[i]
  }

  /// The place of a character in the alphabet, or -1.
  function IndexIn(c: char): (r: int)
    ensures -1 <= r < 85
  {
    IndexOf(Alphabet(), c)
  }

  predicate InAlphabet(c: char) { c in Alphabet() }

  /// Where a character is found first in a string, or -1.
  function IndexOf(s: string, c: char): (r: int)
    ensures -1 <= r < |s| && (r == -1 <==> c !in s) && (r >= 0 ==> s[r] == c && c !in s[..r])
  {
    if s == [] then -1
    else if s[0] == c then 0
    else
      var r := IndexOf(s[1..], c);
      assert r >= 0 ==> s[..r + 1] == [s[0]] + s[1..][..r];
      assert s == [s[0]] + s[1..];
      if r < 0 then -1 else r + 1
  }

  // ---------------------------------------------------------------------------------------------
  // The alphabet

  function Value(c: char): int {
    if '0' <= c <= '9' then c as int - '0' as int
    else if 'a' <= c <= 'z' then 10 + c as int - 'a' as int
    else if 'A' <= c <= 'Z' then 36 + c as int - 'A' as int
    else match c
      case '.' => 62 case '-' => 63 case ':' => 64 case '+' => 65 case '=' => 66 case '^' => 67
      case '!' => 68 case '/' => 69 case '*' => 70 case '?' => 71 case '&' => 72 case '<' => 73
      case '>' => 74 case '(' => 75 case ')' => 76 case '[' => 77 case ']' => 78 case '{' => 79
      case '}' => 80 case '@' => 81 case '%' => 82 case '$' => 83 case '#' => 84
      case _ => -1
  }

  lemma DigitsHaveValues(i: nat)
    requires i < 10
    ensures Value(DIGITS[i]) == i
  {
  }

  lemma LettersHaveValues(i: nat)
    requires i < 26
    ensures Value(LOWER[i]) == 10 + i
  {
  }

  lemma CapitalsHaveValues(i: nat)
    requires i < 26
    ensures Value(UPPER[i]) == 36 + i
  {
  }

  lemma SignsHaveValues(i: nat)
    requires i < 23
    ensures |SIGNS| == 23 && Value(SIGNS[i]) == 62 + i
  {
  }

  /// The characters of the alphabet are all different.
  lemma IndexOfCharOf(i: nat)
    requires i < 85
    ensures IndexIn(CharOf(i)) == i && InAlphabet(CharOf(i))
  {
    HasValue(i);
    HasValue(IndexOf(Alphabet(), CharOf(i)));
  }

  lemma CharOfIndexIn(c: char)
    ensures InAlphabet(c) <==> IndexIn(c) >= 0
    ensures InAlphabet(c) ==> CharOf(IndexIn(c)) == c
  {
  }

  lemma HasValue(i: nat)
    requires i < 85
    ensures Value(CharOf(i)) == i
  {
    SignsHaveValues(0);
    if i < 10 {
      DigitsHaveValues(i);
    } else if i < 36 {
      LettersHaveValues(i - 10);
    } else if i < 62 {
      CapitalsHaveValues(i - 36);
    } else {
      SignsHaveValues(i - 62);
    }
  }

  /// The place of a character is its value in the table of ZeroMQ RFC 32.
  lemma IndexIsValue(c: char)
    requires InAlphabet(c)
    ensures IndexIn(c) == Value(c)
  {
    CharOfIndexIn(c);
    HasValue(IndexIn(c));
  }

  // ---------------------------------------------------------------------------------------------
  // 32-bit arithmetic

  const TWO_32: int := 0x1_0000_0000

  function ToUint32(x: int): nat { x % TWO_32 }

  function ToInt32(x: int): int { if x % TWO_32 >= 0x8000_0000 then x % TWO_32 - TWO_32 else x % TWO_32 }

  /// Bitwise or of naturals.
  function Or(a: nat, b: nat): nat
    decreases a + b
  {
    if a == 0 then b
    else if b == 0 then a
    else (if a % 2 == 1 || b % 2 == 1 then 1 else 0) + 2 * Or(a / 2, b / 2)
  }

  /// `x << k`, `x | y` on 32-bit signed numbers; `p` is 2 to the power k.
  function ShiftLeft(x: int, p: nat): int { ToInt32(x * p) }

  function OrInt32(x: int, y: int): int { ToInt32(Or(ToUint32(x), ToUint32(y))) }

  /// `(x >> k) & 0xff` on a 32-bit signed number: an arithmetic shift, then the low byte of the two's complement.
  function ByteAt(x: int, p: nat): byte
    requires p > 0
  {
    (ToInt32(x) / p % 0x100) as byte
  }

  /// Numbers without a common bit are or-ed by adding them.
  lemma {:induction false} OrIsSum(high: nat, p: nat, b: nat)
    requires PowerOfTwo(p) && b < p
    ensures Or(high * p, b) == high * p + b
    decreases p
  {
    if p == 1 {
      assert high * p == high;
    } else if high * p != 0 && b != 0 {
      var q := p / 2;
      assert p == 2 * q;
      assert high * p == 2 * (high * q);
      OrIsSum(high, q, b / 2);
    }
  }

  /// Four bytes, most significant first, as an unsigned number.
  function Word(d: seq<byte>): (w: nat)
    requires |d| == 4
    ensures w < TWO_32
  {
    d[0] as nat * 0x100_0000 + d[1] as nat * 0x1_0000 + d[2] as nat * 0x100 + d[3] as nat
  }

  /// `((d0 << 24) | (d1 << 16) | (d2 << 8) | d3) >>> 0`
  function Assembled(d: seq<byte>): nat
    requires |d| == 4
  {
    ToUint32(OrInt32(OrInt32(OrInt32(ShiftLeft(d[0] as int, 0x100_0000), ShiftLeft(d[1] as int, 0x1_0000)),
                             ShiftLeft(d[2] as int, 0x100)), d[3] as int))
  }

  lemma UnsignedOfSigned(x: int)
    ensures ToUint32(ToInt32(x)) == ToUint32(x)
  {
  }

  lemma Unsigned(x: int)
    requires 0 <= x < TWO_32
    ensures ToUint32(x) == x
  {
  }

  lemma OrIsSumOfFields(a: int, p: nat, b: int, high: nat)
    requires PowerOfTwo(p) && ToUint32(a) == high * p && ToUint32(b) < p && high * p + ToUint32(b) < TWO_32
    ensures ToUint32(OrInt32(a, b)) == high * p + ToUint32(b)
  {
    hide ToUint32, ToInt32, Or, PowerOfTwo;
    OrIsSum(high, p, ToUint32(b));
    UnsignedOfSigned(Or(ToUint32(a), ToUint32(b)));
    Unsigned(high * p + ToUint32(b));
  }

  lemma Shifted(d: byte, p: nat)
    requires d as nat * p < TWO_32
    ensures ToUint32(ShiftLeft(d as int, p)) == d as nat * p
  {
    UnsignedOfSigned(d as int * p);
    Unsigned(d as int * p);
  }

  /// The signed detour does not matter.
  lemma AssembledIsWord(d: seq<byte>)
    requires |d| == 4
    ensures Assembled(d) == Word(d)
  {
    PowersOfTwo();
    Shifted(d[0], 0x100_0000);
    Shifted(d[1], 0x1_0000);
    Shifted(d[2], 0x100);
    Unsigned(d[3] as int);
    hide ToUint32, ToInt32, Or, PowerOfTwo, ShiftLeft, OrInt32;
    var a, b, c := ShiftLeft(d[0] as int, 0x100_0000), ShiftLeft(d[1] as int, 0x1_0000), ShiftLeft(d[2] as int, 0x100);
    OrIsSumOfFields(a, 0x100_0000, b, d[0] as nat);
    OrIsSumOfFields(OrInt32(a, b), 0x1_0000, c, d[0] as nat * 0x100 + d[1] as nat);
    OrIsSumOfFields(OrInt32(OrInt32(a, b), c), 0x100, d[3] as int, (d[0] as nat * 0x100 + d[1] as nat) * 0x100 + d[2] as nat);
  }

  lemma PowersOfTwo()
    ensures PowerOfTwo(0x100) && PowerOfTwo(0x1_0000) && PowerOfTwo(0x100_0000)
  {
    hide PowerOfTwo;
    IsPower();
    Sixteenfold(1);
    Sixteenfold(16);
    Sixteenfold(0x100);
    Sixteenfold(0x1000);
    Sixteenfold(0x1_0000);
    Sixteenfold(0x10_0000);
  }

  lemma IsPower()
    ensures PowerOfTwo(1)
  {
  }

  lemma Twofold(p: nat)
    requires PowerOfTwo(p)
    ensures PowerOfTwo(2 * p)
  {
    assert 2 * p / 2 == p;
  }

  lemma Sixteenfold(p: nat)
    requires PowerOfTwo(p)
    ensures PowerOfTwo(16 * p)
  {
    hide PowerOfTwo;
    Twofold(p);
    Twofold(2 * p);
    Twofold(4 * p);
    Twofold(8 * p);
  }

  /// The bytes of a number: those of its value modulo 2 to the power 32, whatever its sign as a 32-bit number.
  function Bytes(v: int): (d: seq<byte>)
    ensures |d| == 4
  {
    [ByteAt(v, 0x100_0000), ByteAt(v, 0x1_0000), ByteAt(v, 0x100), ByteAt(v, 1)]
  }

  lemma AtLeastOnce(p: int, e: int)
    requires p > 0 && e != 0
    ensures p * e >= p || p * e <= -p
  {
    if e > 0 { assert p * e >= p * 1; } else { assert p * e <= p * -1; }
  }

  lemma DivIs(x: int, p: int, q: int, r: int)
    requires p > 0 && x == p * q + r && 0 <= r < p
    ensures x / p == q && x % p == r
  {
    var e := x / p - q;
    assert p * (x / p) + x % p == x;
    assert p * e == r - x % p;
    if e != 0 { AtLeastOnce(p, e); }
  }

  lemma ByteOfUnsigned(v: int, p: int, j: int)
    requires p > 0 && TWO_32 == p * (0x100 * j)
    ensures ByteAt(v, p) as int == ToUint32(v) / p % 0x100
  {
    var m := ToUint32(v);
    if m >= 0x8000_0000 {
      assert m == p * (m / p) + m % p;
      assert m - TWO_32 == p * (m / p - 0x100 * j) + m % p by {
        assert p * (m / p - 0x100 * j) == p * (m / p) - p * (0x100 * j);
      }
      DivIs(m - TWO_32, p, m / p - 0x100 * j, m % p);
      DivIs(m / p - 0x100 * j, 0x100, m / p / 0x100 - j, m / p % 0x100);
    }
  }

  lemma BytesOfUnsigned(v: int)
    ensures var m := ToUint32(v);
      && Bytes(v)[0] as int == m / 0x100_0000 % 0x100 && Bytes(v)[1] as int == m / 0x1_0000 % 0x100
      && Bytes(v)[2] as int == m / 0x100 % 0x100 && Bytes(v)[3] as int == m / 1 % 0x100
  {
    ByteOfUnsigned(v, 0x100_0000, 1);
    ByteOfUnsigned(v, 0x1_0000, 0x100);
    ByteOfUnsigned(v, 0x100, 0x1_0000);
    ByteOfUnsigned(v, 1, 0x100_0000);
  }

  /// A number below 2 to the power 32 by its bytes.
  lemma SplitWord(m: nat, d0: nat, d1: nat, d2: nat, d3: nat)
    requires d0 < 0x100 && d1 < 0x100 && d2 < 0x100 && d3 < 0x100
    requires m == ((d0 * 0x100 + d1) * 0x100 + d2) * 0x100 + d3
    ensures m / 0x100_0000 % 0x100 == d0 && m / 0x1_0000 % 0x100 == d1 && m / 0x100 % 0x100 == d2 && m / 1 % 0x100 == d3
  {
    var a, b := d0 * 0x100 + d1, (d0 * 0x100 + d1) * 0x100 + d2;
    DivIs(m, 0x100, b, d3);
    DivIs(m, 0x1_0000, a, d2 * 0x100 + d3);
    DivIs(m, 0x100_0000, d0, d1 * 0x1_0000 + d2 * 0x100 + d3);
    DivIs(b, 0x100, a, d2);
    DivIs(a, 0x100, d0, d1);
    DivIs(d0, 0x100, 0, d0);
  }

  lemma WordOfBytes(v: int)
    ensures Word(Bytes(v)) == ToUint32(v)
  {
    var m := ToUint32(v);
    var a := m / 0x100;
    var b := a / 0x100;
    SplitWord(m, b / 0x100, b % 0x100, a % 0x100, m % 0x100);
    BytesOfUnsigned(v);
  }

  lemma BytesOfWord(d: seq<byte>)
    requires |d| == 4
    ensures Bytes(Word(d)) == d
  {
    SplitWord(Word(d), d[0] as nat, d[1] as nat, d[2] as nat, d[3] as nat);
    Unsigned(Word(d));
    BytesOfUnsigned(Word(d));
    hide Word, ByteAt, ToUint32;
    assert |Bytes(Word(d))| == 4;
  }

  // ---------------------------------------------------------------------------------------------
  // Groups of five characters

  function Digit(v: nat): char { CharOf(v % 85) }

  function EncodeGroup(v: nat): (g: string)
    ensures |g| == 5
  {
    [Digit(v / 85 / 85 / 85 / 85), Digit(v / 85 / 85 / 85), Digit(v / 85 / 85), Digit(v / 85), Digit(v)]
  }

  function GroupValue(g: string): int
    requires |g| == 5
  {
    (((IndexIn(g[0]) * 85 + IndexIn(g[1])) * 85 + IndexIn(g[2])) * 85
      + IndexIn(g[3])) * 85 + IndexIn(g[4])
  }

  predicate Canonical(g: string)
    requires |g| == 5
  {
    (forall c :: c in g ==> InAlphabet(c)) && GroupValue(g) < TWO_32
  }

  lemma DigitHasIndex(v: nat)
    ensures InAlphabet(Digit(v)) && IndexIn(Digit(v)) == v % 85
  {
    IndexOfCharOf(v % 85);
  }

  /// A number below 85 to the power 5 by its digits.
  lemma DigitsOf(v: nat)
    requires v < 85 * 85 * 85 * 85 * 85
    ensures v == (((v / 85 / 85 / 85 / 85 * 85 + v / 85 / 85 / 85 % 85) * 85 + v / 85 / 85 % 85) * 85 + v / 85 % 85) * 85 + v % 85
    ensures v / 85 / 85 / 85 / 85 < 85
  {
  }

  lemma TopDigit(v: nat)
    requires v < TWO_32
    ensures v / 85 / 85 / 85 / 85 % 85 == v / 85 / 85 / 85 / 85
  {
    DigitsOf(v);
  }

  lemma IndicesOfEncodeGroup(v: nat)
    requires v < TWO_32
    ensures var g := EncodeGroup(v);
      && IndexIn(g[0]) == v / 85 / 85 / 85 / 85 && IndexIn(g[1]) == v / 85 / 85 / 85 % 85
      && IndexIn(g[2]) == v / 85 / 85 % 85 && IndexIn(g[3]) == v / 85 % 85 && IndexIn(g[4]) == v % 85
    ensures forall c :: c in EncodeGroup(v) ==> InAlphabet(c)
  {
    TopDigit(v);
    hide Digit, IndexIn, InAlphabet;
    var a := v / 85;
    var b := a / 85;
    var c := b / 85;
    var d := c / 85;
    DigitHasIndex(v);
    DigitHasIndex(a);
    DigitHasIndex(b);
    DigitHasIndex(c);
    DigitHasIndex(d);
  }

  lemma DecodeOfEncodeGroup(v: nat)
    requires v < TWO_32
    ensures GroupValue(EncodeGroup(v)) == v && Canonical(EncodeGroup(v))
  {
    DigitsOf(v);
    IndicesOfEncodeGroup(v);
    hide Digit, IndexIn, InAlphabet, EncodeGroup;
  }

  /// The five digits a value is made of.
  lemma DigitsAre(v: nat, a: nat, b: nat, c: nat, d: nat, e: nat)
    requires a < 85 && b < 85 && c < 85 && d < 85 && e < 85 && v == (((a * 85 + b) * 85 + c) * 85 + d) * 85 + e
    ensures v % 85 == e && v / 85 % 85 == d && v / 85 / 85 % 85 == c && v / 85 / 85 / 85 % 85 == b && v / 85 / 85 / 85 / 85 % 85 == a
  {
    DivIs(v, 85, ((a * 85 + b) * 85 + c) * 85 + d, e);
    DivIs(v / 85, 85, (a * 85 + b) * 85 + c, d);
    DivIs(v / 85 / 85, 85, a * 85 + b, c);
    DivIs(v / 85 / 85 / 85, 85, a, b);
    DivIs(a, 85, 0, a);
  }

  lemma CanonicalChar(g: string, i: nat)
    requires |g| == 5 && Canonical(g) && i < 5
    ensures 0 <= IndexIn(g[i]) < 85 && Digit(IndexIn(g[i])) == g[i]
  {
    hide CharOf, IndexIn, InAlphabet, GroupValue;
    assert g[i] in g;
    CharOfIndexIn(g[i]);
  }

  lemma EncodeOfGroupValue(g: string)
    requires |g| == 5 && Canonical(g)
    ensures GroupValue(g) >= 0 && EncodeGroup(GroupValue(g)) == g
  {
    hide IndexIn, InAlphabet, Canonical, CharOf;
    forall i | 0 <= i < 5 ensures 0 <= IndexIn(g[i]) < 85 && Digit(IndexIn(g[i])) == g[i] { CanonicalChar(g, i); }
    var v := GroupValue(g);
    DigitsAre(v, IndexIn(g[0]), IndexIn(g[1]), IndexIn(g[2]), IndexIn(g[3]), IndexIn(g[4]));
    hide GroupValue;
    assert Digit(v) == g[4] && Digit(v / 85) == g[3] && Digit(v / 85 / 85) == g[2];
    assert Digit(v / 85 / 85 / 85) == g[1] && Digit(v / 85 / 85 / 85 / 85) == g[0];
  }

  // ---------------------------------------------------------------------------------------------
  // Whole strings

  function Encoded(data: seq<byte>): string
    requires |data| % 4 == 0
  {
    if data == [] then [] else Encoded(data[..|data| - 4]) + EncodeGroup(Assembled(data[|data| - 4..]))
  }

  function Decoded(s: string): seq<byte>
    requires |s| % 5 == 0
  {
    if s == [] then [] else Decoded(s[..|s| - 5]) + Bytes(GroupValue(s[|s| - 5..]))
  }

  function Encode(data: seq<byte>): Result<string> {
    if |data| % 4 != 0 then Err("Z85 encode: data length must be a multiple of 4") else Ok(Encoded(data))
  }

  function Decode(s: string): Result<seq<byte>> {
    if |s| % 5 != 0 then Err("Z85 decode: string length must be a multiple of 5") else Ok(Decoded(s))
  }

  lemma {:induction false} EncodedSize(data: seq<byte>)
    requires |data| % 4 == 0
    ensures |Encoded(data)| % 5 == 0
  {
    hide Assembled, Digit;
    if data != [] { EncodedSize(data[..|data| - 4]); }
  }

  lemma {:induction false} DecodedSize(s: string)
    requires |s| % 5 == 0
    ensures |Decoded(s)| % 4 == 0
  {
    hide GroupValue, ByteAt;
    if s != [] { DecodedSize(s[..|s| - 5]); }
  }

  lemma DecodeOneMore(s: string, g: string, before: seq<byte>)
    requires Decode(s) == Ok(before) && |g| == 5
    ensures Decode(s + g) == Ok(before + Bytes(GroupValue(g)))
  {
    hide Bytes, GroupValue;
    assert (s + g)[..|s|] == s && (s + g)[|s|..] == g;
  }

  lemma EncodeOneMore(data: seq<byte>, d: seq<byte>, before: string)
    requires Encode(data) == Ok(before) && |d| == 4
    ensures Encode(data + d) == Ok(before + EncodeGroup(Assembled(d)))
  {
    hide EncodeGroup, Assembled;
    assert (data + d)[..|data|] == data && (data + d)[|data|..] == d;
  }

  lemma {:induction false} DecodeOfEncoded(data: seq<byte>)
    requires |data| % 4 == 0
    ensures Decode(Encoded(data)) == Ok(data)
  {
    hide Assembled, Bytes, Word, EncodeGroup, GroupValue, Canonical;
    EncodedSize(data);
    if data != [] {
      var before, last := data[..|data| - 4], data[|data| - 4..];
      DecodeOfEncoded(before);
      AssembledIsWord(last);
      DecodeOfEncodeGroup(Word(last));
      BytesOfWord(last);
      DecodeOneMore(Encoded(before), EncodeGroup(Assembled(last)), before);
      assert before + last == data;
    }
  }

  /// Encoding bytes and decoding them again gives them back, for every length that can be encoded at all.
  lemma DecodeOfEncode(data: seq<byte>)
    ensures |data| % 4 == 0 ==> Encode(data).Ok? && Decode(Encode(data).value) == Ok(data)
    ensures |data| % 4 != 0 ==> Encode(data).Err?
  {
    if |data| % 4 == 0 { DecodeOfEncoded(data); }
    hide Encoded, Decoded;
  }

  /// Every group of five is in the alphabet and stands for a number below 2 to the power 32.
  predicate AllCanonical(s: string)
    requires |s| % 5 == 0
  {
    s == [] || (AllCanonical(s[..|s| - 5]) && Canonical(s[|s| - 5..]))
  }

  lemma GroupSurvivesIff(g: string)
    requires |g| == 5
    ensures EncodeGroup(Assembled(Bytes(GroupValue(g)))) == g <==> Canonical(g)
  {
    var v := GroupValue(g);
    AssembledIsWord(Bytes(v));
    WordOfBytes(v);
    if Canonical(g) {
      EncodeOfGroupValue(g);
      Unsigned(v);
    } else {
      DecodeOfEncodeGroup(ToUint32(v));
    }
  }

  lemma SamePieces(a: string, b: string, c: string, d: string)
    requires |a| == |c| || |b| == |d|
    ensures a + b == c + d <==> a == c && b == d
  {
    if a + b == c + d {
      assert |a| == |c|;
      assert (a + b)[..|a|] == a && (c + d)[..|a|] == c && (a + b)[|a|..] == b && (c + d)[|a|..] == d;
    }
  }

  lemma {:induction false} EncodeOfDecodedIff(s: string)
    requires |s| % 5 == 0
    ensures Encode(Decoded(s)).Ok? && (Encode(Decoded(s)) == Ok(s) <==> AllCanonical(s))
  {
    hide Assembled, Bytes, Word, EncodeGroup, GroupValue, Canonical, Encoded;
    DecodedSize(s);
    if s == [] {
      NothingEncoded();
    } else {
      var before, last := s[..|s| - 5], s[|s| - 5..];
      EncodeOfDecodedIff(before);
      var d, b := Decoded(before), Bytes(GroupValue(last));
      EncodeOneMore(d, b, Encode(d).value);
      GroupSurvivesIff(last);
      SamePieces(Encode(d).value, EncodeGroup(Assembled(b)), before, last);
      assert s == before + last;
    }
  }

  lemma NothingEncoded()
    ensures Encode([]) == Ok([])
  {
  }

  /// Decoding a string and encoding it again gives it back exactly when it has only characters of the alphabet
  /// and no group of five overflows. Other strings are decoded too, without an error.
  lemma EncodeOfDecodeIff(s: string)
    ensures |s| % 5 != 0 ==> Decode(s).Err?
    ensures |s| % 5 == 0 ==> Decode(s).Ok? && (Encode(Decode(s).value) == Ok(s) <==> AllCanonical(s))
  {
    if |s| % 5 == 0 { EncodeOfDecodedIff(s); }
    hide Encoded, Decoded, AllCanonical;
  }

  // ---------------------------------------------------------------------------------------------
  // The loops

  function Quotient(v: nat, n: nat): nat { if n == 0 then v else Quotient(v, n - 1) / 85 }

  lemma DigitAt(v: nat, j: nat)
    requires j < 5
    ensures EncodeGroup(v)[j] == Digit(Quotient(v, 4 - j))
  {
    hide Digit;
    assert Quotient(v, 1) == v / 85 && Quotient(v, 2) == v / 85 / 85;
    assert Quotient(v, 3) == v / 85 / 85 / 85 && Quotient(v, 4) == v / 85 / 85 / 85 / 85;
  }

  function PartialValue(g: string, k: nat): int
    requires k <= |g|
  {
    if k == 0 then 0 else PartialValue(g, k - 1) * 85 + IndexIn(g[k - 1])
  }

  lemma AllFive(g: string)
    requires |g| == 5
    ensures PartialValue(g, 5) == GroupValue(g)
  {
    hide IndexIn;
    assert PartialValue(g, 1) == IndexIn(g[0]);
    assert PartialValue(g, 2) == PartialValue(g, 1) * 85 + IndexIn(g[1]);
    assert PartialValue(g, 3) == PartialValue(g, 2) * 85 + IndexIn(g[2]);
    assert PartialValue(g, 4) == PartialValue(g, 3) * 85 + IndexIn(g[3]);
  }

  method Z85EncodeGroup(d: seq<byte>) returns (chars: string)
    requires |d| == 4
    ensures chars == EncodeGroup(Assembled(d))
  {
    hide Assembled, CharOf, EncodeGroup;
    var value := Assembled(d);
    ghost var v := value;
    chars := [];
    var j := 4;
    while j >= 0
      invariant -1 <= j <= 4 && |chars| == 4 - j
      invariant value == Quotient(v, 4 - j) && chars == EncodeGroup(v)[j + 1..]
    {
      DigitAt(v, j);
      chars := [CharOf(value % 85)] + chars;
      value := value / 85;
      j := j - 1;
    }
  }

  method Z85Encode(data: seq<byte>) returns (r: Result<string>)
    ensures r == Encode(data)
  {
    hide Assembled, EncodeGroup;
    if |data| % 4 != 0 { return Err("Z85 encode: data length must be a multiple of 4"); }
    var str := "";
    var i := 0;
    while i < |data|
      invariant 0 <= i <= |data| && i % 4 == 0 && str == Encoded(data[..i])
    {
      var group := Z85EncodeGroup(data[i..i + 4]);
      assert data[..i + 4][..i] == data[..i] && data[..i + 4][i..] == data[i..i + 4];
      str := str + group;
      i := i + 4;
    }
    assert data[..i] == data;
    return Ok(str);
  }

  method Z85Decode(str: string) returns (r: Result<seq<byte>>)
    ensures r == Decode(str)
  {
    hide ByteAt, IndexIn, GroupValue;
    if |str| % 5 != 0 { return Err("Z85 decode: string length must be a multiple of 5"); }
    var data := [];
    var i := 0;
    while i < |str|
      invariant 0 <= i <= |str| && i % 5 == 0 && data == Decoded(str[..i])
    {
      var value := 0;
      ghost var g := str[i..i + 5];
      for k := 0 to 5
        invariant value == PartialValue(g, k)
      {
        value := value * 85 + IndexIn(str[i + k]);
      }
      AllFive(g);
      assert str[..i + 5][..i] == str[..i] && str[..i + 5][i..] == g;
      data := data + [ByteAt(value, 0x100_0000), ByteAt(value, 0x1_0000), ByteAt(value, 0x100), ByteAt(value, 1)];
      i := i + 5;
    }
    assert str[..i] == str;
    return Ok(data);
  }

  // ---------------------------------------------------------------------------------------------
  // The example of ZeroMQ RFC 32

  lemma GroupOfDigits(v: nat, a: nat, b: nat, c: nat, d: nat, e: nat)
    requires a < 85 && b < 85 && c < 85 && d < 85 && e < 85 && v == (((a * 85 + b) * 85 + c) * 85 + d) * 85 + e
    ensures EncodeGroup(v) == [CharOf(a), CharOf(b), CharOf(c), CharOf(d), CharOf(e)]
  {
    DigitsAre(v, a, b, c, d, e);
    hide CharOf;
  }

  lemma Letters()
    ensures [CharOf(43), CharOf(14), CharOf(21), CharOf(21), CharOf(24)] == "Hello"
    ensures [CharOf(58), CharOf(24), CharOf(27), CharOf(21), CharOf(13)] == "World"
  {
  }

  lemma Halves(data: seq<byte>)
    requires |data| == 8
    ensures Encoded(data) == EncodeGroup(Word(data[..4])) + EncodeGroup(Word(data[4..]))
  {
    AssembledIsWord(data[..4]);
    AssembledIsWord(data[4..]);
    hide Word, Assembled, EncodeGroup;
    assert data[..4][..0] == [] && data[..4][0..] == data[..4];
    assert Encoded(data[..4]) == [] + EncodeGroup(Assembled(data[..4]));
  }

  const EXAMPLE: seq<byte> := [0x86, 0x4F, 0xD2, 0x6F, 0xB5, 0x59, 0xF7, 0x5B]

  lemma ExampleWords()
    ensures Word(EXAMPLE[..4]) == 0x864F_D26F && Word(EXAMPLE[4..]) == 0xB559_F75B
  {
    assert EXAMPLE[..4] == [0x86, 0x4F, 0xD2, 0x6F] && EXAMPLE[4..] == [0xB5, 0x59, 0xF7, 0x5B];
  }

  lemma HelloWorld()
    ensures Encode([0x86, 0x4F, 0xD2, 0x6F, 0xB5, 0x59, 0xF7, 0x5B]) == Ok("HelloWorld")
    ensures Decode("HelloWorld") == Ok([0x86, 0x4F, 0xD2, 0x6F, 0xB5, 0x59, 0xF7, 0x5B])
  {
    hide Word, EncodeGroup, CharOf, Encoded, Decoded;
    ExampleWords();
    Halves(EXAMPLE);
    GroupOfDigits(0x864F_D26F, 43, 14, 21, 21, 24);
    GroupOfDigits(0xB559_F75B, 58, 24, 27, 21, 13);
    Letters();
    assert "Hello" + "World" == "HelloWorld";
    DecodeOfEncode(EXAMPLE);
  }
}
