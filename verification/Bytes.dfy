/** Machine words, their byte layouts and the bit operations the control plane relies on. */
module Bytes {
  type byte = x: int | 0 <= x < 256
  type u16 = x: int | 0 <= x < 0x1_0000
  type u32 = x: int | 0 <= x < 0x1_0000_0000

  /** Packet bytes from the first byte of the Ethernet header on. */
  type Frame = seq<byte>

  datatype Option<+T> = None | Some(value: T)

  /* ----- layouts ----- */

  function BE16(v: u16): (r: seq<byte>)
    ensures |r| == 2
  {
    [v / 0x100, v % 0x100]
  }

  function BE32(v: u32): (r: seq<byte>)
    ensures |r| == 4
  {
    BE16(v / 0x1_0000) + BE16(v % 0x1_0000)
  }

  function FromBE16(b: seq<byte>): u16
    requires |b| == 2
  {
    0x100 * (b[0] as int) + b[1]
  }

  function FromBE32(b: seq<byte>): u32
    requires |b| == 4
  {
    0x1_0000 * (FromBE16(b[..2]) as int) + FromBE16(b[2..])
  }

  function Reverse(b: seq<byte>): (r: seq<byte>)
    ensures |r| == |b|
  {
    seq(|b|, i requires 0 <= i < |b| => b[|b| - 1 - i])
  }

  /** The bytes a little-endian host keeps in memory for a word. */
  function LE16(v: u16): (r: seq<byte>) ensures |r| == 2 { Reverse(BE16(v)) }
  function LE32(v: u32): (r: seq<byte>) ensures |r| == 4 { Reverse(BE32(v)) }

  function FromLE16(b: seq<byte>): u16 requires |b| == 2 { FromBE16(Reverse(b)) }
  function FromLE32(b: seq<byte>): u32 requires |b| == 4 { FromBE32(Reverse(b)) }

  /** Byte swaps of a little-endian host: store, reverse the bytes, load. They serve as hton and ntoh. */
  function Swap16(v: u16): u16 { FromLE16(Reverse(LE16(v))) }
  function Swap32(v: u32): u32 { FromLE32(Reverse(LE32(v))) }

  lemma ReverseTwice(b: seq<byte>)
    ensures Reverse(Reverse(b)) == b
  {
  }

  lemma BE16RoundTrip(b: seq<byte>)
    requires |b| == 2
    ensures BE16(FromBE16(b)) == b
  {
  }

  lemma FromBE16RoundTrip(v: u16)
    ensures FromBE16(BE16(v)) == v
  {
  }

  lemma SplitWord(hi: u16, lo: u16)
    ensures (0x1_0000 * (hi as int) + lo) / 0x1_0000 == hi && (0x1_0000 * (hi as int) + lo) % 0x1_0000 == lo
  {
  }

  lemma BE32RoundTrip(b: seq<byte>)
    requires |b| == 4
    ensures BE32(FromBE32(b)) == b
  {
    hide BE16, FromBE16;
    SplitWord(FromBE16(b[..2]), FromBE16(b[2..]));
    BE16RoundTrip(b[..2]);
    BE16RoundTrip(b[2..]);
    assert b == b[..2] + b[2..];
  }

  lemma FromBE32RoundTrip(v: u32)
    ensures FromBE32(BE32(v)) == v
  {
    FromBE16RoundTrip(v / 0x1_0000);
    FromBE16RoundTrip(v % 0x1_0000);
    assert BE32(v)[..2] == BE16(v / 0x1_0000);
    assert BE32(v)[2..] == BE16(v % 0x1_0000);
  }

  /** Network order puts the most significant byte first. */
  lemma NetworkOrder(v: u32, b: seq<byte>)
    requires |b| == 4
    ensures BE32(v) == b <==> v == 0x100_0000 * (b[0] as int) + 0x1_0000 * (b[1] as int) + 0x100 * (b[2] as int) + b[3]
  {
    FromBE32RoundTrip(v);
    BE32RoundTrip(b);
  }

  /** A swapped word lies in memory in network order. */
  lemma Swap16Layout(v: u16)
    ensures LE16(Swap16(v)) == BE16(v)
  {
    ReverseTwice(BE16(v));
    BE16RoundTrip(Reverse(BE16(v)));
    ReverseTwice(Reverse(BE16(v)));
  }

  lemma Swap32Layout(v: u32)
    ensures LE32(Swap32(v)) == BE32(v)
  {
    ReverseTwice(BE32(v));
    BE32RoundTrip(Reverse(BE32(v)));
    ReverseTwice(Reverse(BE32(v)));
  }

  /** Loading a network-order field and swapping it gives its numeric value. */
  lemma SwapOfLoad(b: seq<byte>)
    requires |b| == 4
    ensures Swap32(FromLE32(b)) == FromBE32(b)
  {
    BE32RoundTrip(Reverse(b));
    ReverseTwice(b);
    ReverseTwice(BE32(FromLE32(b)));
    assert LE32(FromLE32(b)) == b;
    ReverseTwice(b);
  }

  /** Taking one from a word whose last byte is not zero leaves the other three bytes alone. */
  lemma DecrementLastByte(b: seq<byte>)
    requires |b| == 4 && b[3] > 0
    ensures FromBE32(b) > 0
    ensures BE32(FromBE32(b) - 1) == b[..3] + [b[3] - 1]
  {
    var b' := b[..3] + [b[3] - 1];
    assert b[..2] == b'[..2];
    assert FromBE32(b') == FromBE32(b) - 1;
    BE32RoundTrip(b');
  }

  lemma LastByteIsLowByte(b: seq<byte>)
    requires |b| == 4
    ensures FromBE32(b) % 0x100 == b[3]
  {
  }

  /* ----- bitwise or on unbounded naturals ----- */

  function BitOr(a: nat, b: nat): nat
    decreases a + b
  {
    if a == 0 && b == 0 then 0
    else (if a % 2 == 1 || b % 2 == 1 then 1 else 0) + 2 * BitOr(a / 2, b / 2)
  }

  /** x * 2^k. */
  function Shl(x: nat, k: nat): (r: nat)
    ensures x > 0 ==> r > 0
  {
    if k == 0 then x else 2 * Shl(x, k - 1)
  }

  lemma {:induction false} BitOrZero(a: nat)
    ensures BitOr(a, 0) == a
  {
    if a > 0 { BitOrZero(a / 2); }
  }

  lemma {:induction false} BitOrZeroLeft(a: nat)
    ensures BitOr(0, a) == a
  {
    if a > 0 { BitOrZeroLeft(a / 2); }
  }

  lemma {:induction false} BitOrSelf(a: nat)
    ensures BitOr(a, a) == a
  {
    if a > 0 { BitOrSelf(a / 2); }
  }

  /** Or with a mask of k ones is that mask. */
  lemma {:induction false} BitOrSaturates(a: nat, k: nat)
    requires a < Shl(1, k)
    ensures BitOr(a, Shl(1, k) - 1) == Shl(1, k) - 1
  {
    if k > 0 {
      BitOrSaturates(a / 2, k - 1);
      HalfOfMask(k);
    }
  }

  lemma HalfOfMask(k: nat)
    requires k > 0
    ensures (Shl(1, k) - 1) / 2 == Shl(1, k - 1) - 1 && (Shl(1, k) - 1) % 2 == 1
  {
  }

  /** Below bit k the or copies y, above it the operands are or-ed. */
  lemma {:induction false} BitOrSplit(a: nat, b: nat, k: nat, y: nat)
    requires y < Shl(1, k)
    ensures BitOr(Shl(a, k), Shl(b, k) + y) == Shl(BitOr(a, b), k) + y
  {
    hide BitOr;
    if k > 0 {
      ShlStep(1, k);
      ShlStep(a, k);
      ShlStep(b, k);
      ShlStep(BitOr(a, b), k);
      hide Shl;
      assert y == 2 * (y / 2) + y % 2;
      BitOrSplit(a, b, k - 1, y / 2);
      BitOrStep(Shl(a, k - 1), Shl(b, k - 1) + y / 2, y % 2);
    }
  }

  lemma ShlStep(x: nat, k: nat)
    requires k > 0
    ensures Shl(x, k) == 2 * Shl(x, k - 1)
  {
  }

  lemma BitOrStep(a: nat, b: nat, bit: nat)
    requires bit < 2
    ensures BitOr(2 * a, 2 * b + bit) == 2 * BitOr(a, b) + bit
  {
    var x, y := 2 * a, 2 * b + bit;
    assert x / 2 == a && x % 2 == 0;
    assert y / 2 == b && y % 2 == bit;
  }

  lemma ShlEight(x: nat)
    ensures Shl(x, 8) == 0x100 * x
  {
    assert Shl(x, 1) == 2 * x;
    assert Shl(x, 2) == 4 * x;
    assert Shl(x, 3) == 8 * x;
    assert Shl(x, 4) == 16 * x;
    assert Shl(x, 5) == 32 * x;
    assert Shl(x, 6) == 64 * x;
    assert Shl(x, 7) == 128 * x;
  }

  /** Or-ing a shifted number into a word leaves the last byte alone. */
  lemma OrAboveByte(p: nat, y: nat)
    ensures BitOr(0x100 * p, y) == 0x100 * BitOr(p, y / 0x100) + y % 0x100
  {
    hide BitOr, Shl;
    ShlEight(1);
    ShlEight(p);
    var q, r := y / 0x100, y % 0x100;
    assert y == 0x100 * q + r;
    ShlEight(q);
    ShlEight(BitOr(p, q));
    BitOrSplit(p, q, 8, r);
  }

  /** Or-ing a byte below a shifted number appends it. */
  lemma OrAppendsByte(p: nat, y: byte)
    ensures BitOr(0x100 * p, y) == 0x100 * p + y
  {
    hide BitOr, Shl;
    ShlEight(1);
    ShlEight(p);
    ShlEight(0);
    BitOrSplit(p, 0, 8, y);
    BitOrZero(p);
  }

  /** Or-ing a word whose upper three bytes are all ones leaves that word. */
  lemma OrWipesUpperBytes(p: nat, y: byte)
    requires p < 0x100_0000
    ensures BitOr(0x100 * p, 0xFFFF_FF00 + y) == 0xFFFF_FF00 + y
  {
    hide BitOr, Shl;
    ShlEight(1);
    ShlEight(p);
    ShlEight(0xFF_FFFF);
    BitOrSplit(p, 0xFF_FFFF, 8, y);
    PowersOfByte();
    BitOrSaturates(p, 24);
  }

  lemma {:induction false} ShlSum(x: nat, j: nat, k: nat)
    ensures Shl(x, j + k) == Shl(Shl(x, j), k)
  {
    if k > 0 { ShlSum(x, j, k - 1); }
  }

  lemma PowersOfByte()
    ensures Shl(1, 24) == 0x100_0000 && Shl(1, 32) == 0x1_0000_0000
  {
    hide Shl;
    ShlEight(1);
    ShlSum(1, 8, 8);
    ShlEight(0x100);
    ShlSum(1, 16, 8);
    ShlEight(0x1_0000);
    ShlSum(1, 24, 8);
    ShlEight(0x100_0000);
  }

  lemma {:induction false} BitOrBound(a: nat, b: nat, k: nat)
    requires a < Shl(1, k) && b < Shl(1, k)
    ensures BitOr(a, b) < Shl(1, k)
  {
    if k > 0 { BitOrBound(a / 2, b / 2, k - 1); }
  }

  /** The or of two 32-bit words. */
  function Or32(a: u32, b: u32): u32 {
    PowersOfByte();
    BitOrBound(a, b, 32);
    BitOr(a, b)
  }
}
