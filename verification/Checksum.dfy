/** The checksum of the tunnel's outer header, and when it verifies. */
module Checksum {
  import opened Bytes

  /** Sum of the first n 16-bit words as a little-endian host loads them. */
  function WordSum(h: seq<byte>, n: nat): nat
    requires 2 * n <= |h|
  {
    if n == 0 then 0 else WordSum(h, n - 1) + FromLE16(h[2 * n - 2..2 * n])
  }

  function Fold(s: nat): nat { s % 0x1_0000 + s / 0x1_0000 }

  /** `~((csum & 0xffff) + (csum >> 16))`, cut to 16 bits. */
  function StoredCheck(s: nat): u16 { 0xFFFF - Fold(s) % 0x1_0000 }

  /** The summing loop over a 20-byte header. */
  method SumHeader(h: seq<byte>) returns (csum: u32)
    requires |h| == 20
    ensures csum == WordSum(h, 10) && csum < 0x10_0000
  {
    csum := 0;
    for i := 0 to 10
      invariant csum == WordSum(h, i) && csum <= i * 0xFFFF
    {
      csum := csum + FromLE16(h[2 * i..2 * i + 2]);
    }
  }

  /** The header with its check field, bytes 10 and 11, filled in. */
  function WithCheck(h: seq<byte>): (r: seq<byte>)
    requires |h| == 20
    ensures |r| == 20
  {
    h[..10] + LE16(StoredCheck(WordSum(h, 10))) + h[12..]
  }

  /* ----- verification in network order, section 1 of RFC 1071 ----- */

  function OnesAdd(x: u16, y: u16): u16 {
    if x + y >= 0x1_0000 then x + y - 0xFFFF else x + y
  }

  /** One's-complement sum of the first n words in network order. */
  function OnesSum(h: seq<byte>, n: nat): u16
    requires 2 * n <= |h|
  {
    if n == 0 then 0 else OnesAdd(OnesSum(h, n - 1), FromBE16(h[2 * n - 2..2 * n]))
  }

  ghost predicate Verifies(h: seq<byte>)
    requires |h| == 20
  {
    OnesSum(h, 10) == 0xFFFF
  }

  /** Sums of the first and of the second bytes of the words. */
  function FirstBytes(h: seq<byte>, n: nat): nat
    requires 2 * n <= |h|
  {
    if n == 0 then 0 else FirstBytes(h, n - 1) + h[2 * n - 2]
  }

  function SecondBytes(h: seq<byte>, n: nat): nat
    requires 2 * n <= |h|
  {
    if n == 0 then 0 else SecondBytes(h, n - 1) + h[2 * n - 1]
  }

  /** How often the end-around carry was taken. */
  function Carries(h: seq<byte>, n: nat): nat
    requires 2 * n <= |h|
  {
    if n == 0 then 0
    else Carries(h, n - 1) + (if OnesSum(h, n - 1) + FromBE16(h[2 * n - 2..2 * n]) >= 0x1_0000 then 1 else 0)
  }

  lemma {:induction false} SumsByBytes(h: seq<byte>, n: nat)
    requires 2 * n <= |h|
    ensures WordSum(h, n) == FirstBytes(h, n) + 0x100 * SecondBytes(h, n)
    ensures OnesSum(h, n) + 0xFFFF * Carries(h, n) == 0x100 * FirstBytes(h, n) + SecondBytes(h, n)
    ensures OnesSum(h, n) == 0 ==> FirstBytes(h, n) == 0 && SecondBytes(h, n) == 0
  {
    if n > 0 {
      hide FromLE16, FromBE16;
      SumsByBytes(h, n - 1);
      WordBytes(h[2 * n - 2..2 * n]);
    }
  }

  lemma WordBytes(w: seq<byte>)
    requires |w| == 2
    ensures FromLE16(w) == w[0] + 0x100 * (w[1] as int) && FromBE16(w) == 0x100 * (w[0] as int) + w[1]
  {
  }

  lemma {:induction false} SumWithCheck(h: seq<byte>, h': seq<byte>, n: nat, c: u16)
    requires |h| == 20 && n <= 10 && h[10] == 0 && h[11] == 0 && h' == h[..10] + LE16(c) + h[12..]
    ensures WordSum(h', n) == WordSum(h, n) + (if n > 5 then c else 0)
  {
    hide LE16, FromLE16;
    if n > 0 {
      SumWithCheck(h, h', n - 1, c);
      CheckedWord(h, h', n - 1, c);
    }
  }

  lemma CheckedWord(h: seq<byte>, h': seq<byte>, i: nat, c: u16)
    requires |h| == 20 && i < 10 && h[10] == 0 && h[11] == 0 && h' == h[..10] + LE16(c) + h[12..]
    ensures FromLE16(h'[2 * i..2 * i + 2]) == FromLE16(h[2 * i..2 * i + 2]) + (if i == 5 then c else 0)
  {
    if i == 5 {
      assert h'[10..12] == LE16(c) && h[10..12] == [0, 0];
      ReverseTwice(BE16(c));
      FromBE16RoundTrip(c);
    } else {
      assert h'[2 * i..2 * i + 2] == h[2 * i..2 * i + 2];
    }
  }

  /** Folding once is enough exactly when the one fold does not carry again. */
  lemma SingleFoldCondition(h: seq<byte>)
    requires |h| == 20 && h[10] == 0 && h[11] == 0 && WordSum(h, 10) > 0
    ensures Verifies(WithCheck(h)) <==> Fold(WordSum(h, 10)) < 0x1_0000
  {
    hide WordSum, OnesSum, FirstBytes, SecondBytes, Carries;
    var h', s := WithCheck(h), WordSum(h, 10);
    SumWithCheck(h, h', 10, StoredCheck(s));
    SumsByBytes(h', 10);
    SumBound(h, 10);
    FoldedSum(s, FirstBytes(h', 10), SecondBytes(h', 10), OnesSum(h', 10), Carries(h', 10));
  }

  lemma FoldedSum(s: nat, first: nat, second: nat, ones: u16, carries: nat)
    requires 0 < s <= 10 * 0xFFFF
    requires s + StoredCheck(s) == first + 0x100 * second
    requires ones + 0xFFFF * carries == 0x100 * first + second && (ones == 0 ==> first == 0 && second == 0)
    ensures ones == 0xFFFF <==> Fold(s) < 0x1_0000
  {
    var q, r := s / 0x1_0000, s % 0x1_0000;
    if Fold(s) < 0x1_0000 {
      assert s + StoredCheck(s) == 0xFFFF * (q + 1);
      assert ones == 0xFFFF * (0x100 * (q + 1) - second - carries);
    } else {
      assert s + StoredCheck(s) == 0xFFFF * (q + 2) + 1;
      assert ones == 0xFFFF * (0x100 * (q + 2) - second - carries) + 0x100;
    }
  }

  lemma {:induction false} SumBound(h: seq<byte>, n: nat)
    requires 2 * n <= |h|
    ensures WordSum(h, n) <= n * 0xFFFF
  {
    if n > 0 { SumBound(h, n - 1); }
  }
}
