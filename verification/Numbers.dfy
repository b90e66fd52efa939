/** Words and bit sequences as numbers: the layouts of registers are stated by
    arithmetic on these, and not by the masks that the modules use. */
module Numbers {
  import opened Words

  function Flag(b: bool): int { if b then 1 else 0 }

  // The bit of weight `at`, a power of two.
  predicate Bit(n: int, at: int)
    requires at > 0
  {
    (n / at) % 2 == 1
  }

  lemma DivOf(q: int, at: int, r: int)
    requires at > 0 && 0 <= r < at
    ensures (q * at + r) / at == q && (q * at + r) % at == r
  {
    var n := q * at + r;
    var d := q - n / at;
    assert n == at * (n / at) + n % at;
    assert at * d == n % at - r;
    assert d >= 1 ==> at * d >= at;
    assert d <= -1 ==> at * d <= -at;
  }

  // The lowest digit, and what is above it.
  lemma SameDigit(hi: int, lo: int, hi': int, lo': int, at: int)
    requires at > 0 && 0 <= lo < at && 0 <= lo' < at && hi * at + lo == hi' * at + lo'
    ensures hi == hi' && lo == lo'
  {
    DivOf(hi, at, lo);
    DivOf(hi', at, lo');
  }

  // A part of a number, between a higher and a lower one.
  lemma PartOf(n: int, at: int, size: int, hi: int, x: int, lo: int)
    requires at > 0 && size > 0 && 0 <= lo < at && 0 <= x < size && n == (hi * size + x) * at + lo
    ensures (n / at) % size == x
  {
    DivOf(hi * size + x, at, lo);
    DivOf(hi, size, x);
  }

  // ---- Words ----

  lemma SameNumber(v: Word, w: Word)
    requires v as int == w as int
    ensures v == w
  {
    Back(v);
    Back(w);
  }

  lemma Back(w: Word)
    ensures (w as int) as Word == w
  {
  }

  lemma TopLane(w: Word)
    ensures w as int == Lane(w, 3) as int * 0x100_0000 + (w & 0xff_ffff) as int
  {
  }

  lemma NextLane(w: Word)
    ensures (w & 0xff_ffff) as int == Lane(w, 2) as int * 0x1_0000 + (w & 0xffff) as int
  {
  }

  lemma LowerLane(w: Word)
    ensures (w & 0xffff) as int == Lane(w, 1) as int * 0x100 + (w & 0xff) as int
  {
  }

  lemma LastLane(w: Word)
    ensures (w & 0xff) as int == Lane(w, 0) as int
  {
  }

  lemma LowHalf(w: Word)
    ensures ((w & 0xffff) as bv16) as int == (w & 0xffff) as int
  {
  }

  // A word is its lanes, the higher ones weighing 256 times as much.
  lemma WordIsLanes(w: Word)
    ensures w as int == Lane(w, 0) as int + Lane(w, 1) as int * 0x100
                        + Lane(w, 2) as int * 0x1_0000 + Lane(w, 3) as int * 0x100_0000
  {
    hide Lane;
    TopLane(w);
    NextLane(w);
    LowerLane(w);
    LastLane(w);
  }

  // Digit i of a word to base 256.
  function Digit(w: Word, i: nat): (n: int)
    requires i < 4
    ensures 0 <= n < 256
  {
    Lane(w, i) as int
  }

  lemma WordIsDigits(w: Word)
    ensures w as int == Digit(w, 0) + Digit(w, 1) * 0x100 + Digit(w, 2) * 0x1_0000 + Digit(w, 3) * 0x100_0000
  {
    hide Lane;
    WordIsLanes(w);
  }

  lemma CutDigits(n: int, b0: int, b1: int, b2: int, b3: int)
    requires 0 <= b0 < 256 && 0 <= b1 < 256 && 0 <= b2 < 256 && 0 <= b3 < 256
    requires n == b0 + b1 * 0x100 + b2 * 0x1_0000 + b3 * 0x100_0000
    ensures n % 0x100 == b0 && n % 0x1_0000 == b0 + b1 * 0x100 && 0 <= n < 0x1_0000_0000
  {
    DivOf(b1 + b2 * 0x100 + b3 * 0x1_0000, 0x100, b0);
    DivOf(b2 + b3 * 0x100, 0x1_0000, b0 + b1 * 0x100);
  }

  lemma ByteIsBits(b: Byte)
    ensures b as int == Flag(b & 1 != 0) + 2 * Flag(b & 2 != 0) + 4 * Flag(b & 4 != 0) + 8 * Flag(b & 8 != 0)
                        + 16 * Flag(b & 16 != 0) + 32 * Flag(b & 32 != 0) + 64 * Flag(b & 64 != 0)
                        + 128 * Flag(b & 128 != 0)
  {
  }

  // ---- Bit sequences, the first bit the lowest ----

  function NumberOf(b: seq<bool>): (n: nat)
  {
    if b == [] then 0 else Flag(b[0]) + 2 * NumberOf(b[1..])
  }

  function Power(k: nat): (p: nat)
    ensures p > 0
  {
    if k == 0 then 1 else 2 * Power(k - 1)
  }

  lemma {:induction false} NumberBound(b: seq<bool>)
    ensures NumberOf(b) < Power(|b|)
    decreases |b|
  {
    if b != [] { NumberBound(b[1..]); }
  }

  lemma {:induction false} NumberOfJoined(a: seq<bool>, b: seq<bool>)
    ensures NumberOf(a + b) == NumberOf(a) + Power(|a|) * NumberOf(b)
    decreases |a|
  {
    if a == [] {
      assert a + b == b;
    } else {
      assert (a + b)[1..] == a[1..] + b;
      NumberOfJoined(a[1..], b);
      Doubled(Power(|a| - 1), NumberOf(b));
    }
  }

  lemma Doubled(p: int, n: int)
    ensures 2 * (p * n) == (2 * p) * n
  {
  }

  // Equal numbers of equal width are equal bit by bit.
  lemma {:induction false} SameBits(a: seq<bool>, b: seq<bool>)
    requires |a| == |b| && NumberOf(a) == NumberOf(b)
    ensures a == b
    decreases |a|
  {
    if a != [] {
      SameBits(a[1..], b[1..]);
      assert a == [a[0]] + a[1..] && b == [b[0]] + b[1..];
    }
  }

  lemma PartSum(n: int, p: int, q: int, low: int, part: int, high: int)
    requires p > 0 && 0 <= low < p && 0 <= part < q && n == low + p * (part + q * high)
    ensures (n / p) % q == part
  {
    PartOf(n, p, q, high, part, low);
  }

  // Any part of a sequence is that part of its number.
  lemma NumberPart(b: seq<bool>, lo: nat, len: nat)
    requires lo + len <= |b|
    ensures (NumberOf(b) / Power(lo)) % Power(len) == NumberOf(b[lo..lo + len])
  {
    hide NumberOf, Power;
    var low, part, high := b[..lo], b[lo..lo + len], b[lo + len..];
    assert b == low + (part + high);
    NumberOfJoined(low, part + high);
    NumberOfJoined(part, high);
    NumberBound(low);
    NumberBound(part);
    PartSum(NumberOf(b), Power(lo), Power(len), NumberOf(low), NumberOf(part), NumberOf(high));
  }

  lemma NumberBit(b: seq<bool>, k: nat)
    requires k < |b|
    ensures Bit(NumberOf(b), Power(k)) <==> b[k]
  {
    NumberPart(b, k, 1);
    assert b[k..k + 1] == [b[k]] && [b[k]][1..] == [];
    assert Power(1) == 2 * Power(0);
  }

  // The powers that weigh the bits of a word.
  lemma Powers()
    ensures Power(0) == 1 && Power(1) == 2 && Power(2) == 4 && Power(3) == 8 && Power(4) == 0x10 && Power(5) == 0x20
    ensures Power(6) == 0x40 && Power(7) == 0x80 && Power(8) == 0x100 && Power(9) == 0x200 && Power(10) == 0x400
    ensures Power(12) == 0x1000
    ensures Power(15) == 0x8000 && Power(16) == 0x1_0000 && Power(17) == 0x2_0000 && Power(20) == 0x10_0000
    ensures Power(22) == 0x40_0000 && Power(24) == 0x100_0000 && Power(30) == 0x4000_0000 && Power(31) == 0x8000_0000
    ensures Power(32) == 0x1_0000_0000 && Power(34) == 0x4_0000_0000
  {
    SmallPowers();
    hide Power;
    PowerOfSum(8, 1);
    PowerOfSum(8, 2);
    PowerOfSum(8, 4);
    PowerOfSum(8, 7);
    PowerOfSum(8, 8);
    PowerOfSum(16, 1);
    PowerOfSum(16, 4);
    PowerOfSum(16, 6);
    PowerOfSum(16, 8);
    PowerOfSum(24, 6);
    PowerOfSum(24, 7);
    PowerOfSum(24, 8);
    PowerOfSum(32, 2);
  }

  lemma SmallPowers()
    ensures Power(0) == 1 && Power(1) == 2 && Power(2) == 4 && Power(3) == 8 && Power(4) == 0x10 && Power(5) == 0x20
    ensures Power(6) == 0x40 && Power(7) == 0x80 && Power(8) == 0x100
  {
    assert Power(2) == 2 * Power(1);
    assert Power(4) == 2 * Power(3);
    assert Power(6) == 2 * Power(5);
    assert Power(8) == 2 * Power(7);
  }

  lemma {:induction false} PowerOfSum(a: nat, b: nat)
    ensures Power(a + b) == Power(a) * Power(b)
    decreases a
  {
    if a > 0 {
      PowerOfSum(a - 1, b);
      Doubled(Power(a - 1), Power(b));
    }
  }

  // ---- A word as a bit sequence ----

  function ByteBits(b: Byte): (s: seq<bool>)
    ensures |s| == 8
  {
    [b & 1 != 0, b & 2 != 0, b & 4 != 0, b & 8 != 0, b & 16 != 0, b & 32 != 0, b & 64 != 0, b & 128 != 0]
  }

  lemma EightBits(s: seq<bool>)
    requires |s| == 8
    ensures NumberOf(s) == Flag(s[0]) + 2 * Flag(s[1]) + 4 * Flag(s[2]) + 8 * Flag(s[3]) + 16 * Flag(s[4])
                           + 32 * Flag(s[5]) + 64 * Flag(s[6]) + 128 * Flag(s[7])
  {
    assert NumberOf(s[7..]) == Flag(s[7]) + 2 * NumberOf([]);
    assert forall k | 0 <= k < 7 :: s[k..][1..] == s[k + 1..];
    assert NumberOf(s[6..]) == Flag(s[6]) + 2 * NumberOf(s[7..]);
    assert NumberOf(s[5..]) == Flag(s[5]) + 2 * NumberOf(s[6..]);
    assert NumberOf(s[4..]) == Flag(s[4]) + 2 * NumberOf(s[5..]);
    assert NumberOf(s[3..]) == Flag(s[3]) + 2 * NumberOf(s[4..]);
    assert NumberOf(s[2..]) == Flag(s[2]) + 2 * NumberOf(s[3..]);
    assert NumberOf(s[1..]) == Flag(s[1]) + 2 * NumberOf(s[2..]);
  }

  lemma ByteBitsNumber(b: Byte)
    ensures NumberOf(ByteBits(b)) == b as int
  {
    EightBits(ByteBits(b));
    ByteIsBits(b);
    hide NumberOf;
  }

  function WordBits(w: Word): (s: seq<bool>)
    ensures |s| == 32
  {
    ByteBits(Lane(w, 0)) + (ByteBits(Lane(w, 1)) + (ByteBits(Lane(w, 2)) + ByteBits(Lane(w, 3))))
  }

  // Bit 8i + k of a word is bit k of lane i.
  lemma BitOfLane(w: Word, i: nat, k: nat)
    requires i < 4 && k < 8
    ensures WordBits(w)[8 * i + k] == ByteBits(Lane(w, i))[k]
  {
    hide Lane, ByteBits;
  }

  lemma WordBitsNumber(w: Word)
    ensures NumberOf(WordBits(w)) == w as int
  {
    hide Lane, ByteBits, NumberOf, Power;
    WordIsLanes(w);
    var b0, b1, b2, b3 := ByteBits(Lane(w, 0)), ByteBits(Lane(w, 1)), ByteBits(Lane(w, 2)), ByteBits(Lane(w, 3));
    ByteBitsNumber(Lane(w, 0));
    ByteBitsNumber(Lane(w, 1));
    ByteBitsNumber(Lane(w, 2));
    ByteBitsNumber(Lane(w, 3));
    EightJoined(b2, b3);
    EightJoined(b1, b2 + b3);
    EightJoined(b0, b1 + (b2 + b3));
  }

  lemma EightJoined(a: seq<bool>, b: seq<bool>)
    requires |a| == 8
    ensures NumberOf(a + b) == NumberOf(a) + 0x100 * NumberOf(b)
  {
    hide NumberOf;
    SmallPowers();
    NumberOfJoined(a, b);
  }

  // The bit of weight 2^k in a word.
  lemma WordBit(w: Word, k: nat)
    requires k < 32
    ensures Bit(w as int, Power(k)) <==> WordBits(w)[k]
  {
    hide WordBits, NumberOf, Power, Bit;
    WordBitsNumber(w);
    NumberBit(WordBits(w), k);
  }

  lemma WordPart(w: Word, lo: nat, len: nat)
    requires lo + len <= 32
    ensures (w as int / Power(lo)) % Power(len) == NumberOf(WordBits(w)[lo..lo + len])
  {
    hide WordBits, NumberOf, Power;
    WordBitsNumber(w);
    NumberPart(WordBits(w), lo, len);
  }

  lemma ThreeBits(s: seq<bool>)
    requires |s| == 3
    ensures NumberOf(s) == Flag(s[0]) + 2 * Flag(s[1]) + 4 * Flag(s[2])
  {
    assert NumberOf(s[2..]) == Flag(s[2]) + 2 * NumberOf([]);
    assert s[1..][1..] == s[2..] && s[2..][1..] == [];
    assert NumberOf(s[1..]) == Flag(s[1]) + 2 * NumberOf(s[2..]);
  }

  // ---- A bit sequence as a word ----

  function ByteFrom(s: seq<bool>): Byte
    requires |s| == 8
  {
    (if s[0] then 1 else 0) | (if s[1] then 2 else 0) | (if s[2] then 4 else 0) | (if s[3] then 8 else 0)
    | (if s[4] then 16 else 0) | (if s[5] then 32 else 0) | (if s[6] then 64 else 0) | (if s[7] then 128 else 0)
  }

  function WordOf(s: seq<bool>): Word
    requires |s| == 32
  {
    FromLanes(ByteFrom(s[..8]), ByteFrom(s[8..16]), ByteFrom(s[16..24]), ByteFrom(s[24..]))
  }

  // Seven bits, as a DMI address.
  function SevenOf(s: seq<bool>): bv7
    requires |s| == 7
  {
    (if s[0] then 1 else 0) | (if s[1] then 2 else 0) | (if s[2] then 4 else 0) | (if s[3] then 8 else 0)
    | (if s[4] then 16 else 0) | (if s[5] then 32 else 0) | (if s[6] then 64 else 0)
  }

  lemma ByteOfBits(s: seq<bool>)
    requires |s| == 8
    ensures ByteBits(ByteFrom(s)) == s
  {
  }

  lemma BitsOfWord(s: seq<bool>)
    requires |s| == 32
    ensures WordBits(WordOf(s)) == s
  {
    hide ByteFrom, ByteBits, Lane, FromLanes;
    ByteOfBits(s[..8]);
    ByteOfBits(s[8..16]);
    ByteOfBits(s[16..24]);
    ByteOfBits(s[24..]);
    assert s == s[..8] + (s[8..16] + (s[16..24] + s[24..]));
  }

  lemma WordOfBits(s: seq<bool>)
    requires |s| == 32
    ensures WordBits(WordOf(s)) == s && WordOf(s) as int == NumberOf(s)
  {
    hide WordBits, WordOf, NumberOf;
    BitsOfWord(s);
    WordBitsNumber(WordOf(s));
  }

  lemma SevenBits(a: bv7)
    ensures a as int == Flag(a & 1 != 0) + 2 * Flag(a & 2 != 0) + 4 * Flag(a & 4 != 0) + 8 * Flag(a & 8 != 0)
                        + 16 * Flag(a & 16 != 0) + 32 * Flag(a & 32 != 0) + 64 * Flag(a & 64 != 0)
  {
  }

  lemma SevenMasks(s: seq<bool>)
    requires |s| == 7
    ensures var a := SevenOf(s);
            && (a & 1 != 0 <==> s[0]) && (a & 2 != 0 <==> s[1]) && (a & 4 != 0 <==> s[2]) && (a & 8 != 0 <==> s[3])
            && (a & 16 != 0 <==> s[4]) && (a & 32 != 0 <==> s[5]) && (a & 64 != 0 <==> s[6])
  {
  }

  lemma SevenNumber(s: seq<bool>)
    requires |s| == 7
    ensures SevenOf(s) as int == NumberOf(s)
  {
    hide SevenOf;
    SevenBits(SevenOf(s));
    SevenMasks(s);
    SevenSum(s);
  }

  lemma SevenSum(s: seq<bool>)
    requires |s| == 7
    ensures NumberOf(s) == Flag(s[0]) + 2 * Flag(s[1]) + 4 * Flag(s[2]) + 8 * Flag(s[3]) + 16 * Flag(s[4])
                           + 32 * Flag(s[5]) + 64 * Flag(s[6])
  {
    EightBits(s + [false]);
    NumberOfJoined(s, [false]);
    hide NumberOf;
  }
}
