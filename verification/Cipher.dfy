/** Octets as numbers and as bit patterns. */
module Octets {
  lemma BitsOfByte(a: int)
    requires 0 <= a < 256
    ensures (a as bv8) as int == a
  {
  }

  lemma ByteOfBits(a: bv8)
    ensures (a as int) as bv8 == a
  {
  }
}

/** The cipher at work on a packet: block counter, in-place XOR, and the loop over the payload. */
module Cipher {
  import opened Bytes
  import opened Frames
  import opened Words
  import opened ChaCha
  import opened Octets

  const CHACHA_ROUNDS: byte := 8
  const MAX_BLOCKS: nat := 24
  const BLOCK: nat := 64

  /* ----- context and counter ----- */

  /** The sixteen characters "expand 16-byte k". */
  const TAU: seq<bv8> := [0x65, 0x78, 0x70, 0x61, 0x6e, 0x64, 0x20, 0x31,
                          0x36, 0x2d, 0x62, 0x79, 0x74, 0x65, 0x20, 0x6b]

  /** The first four words of sixteen bytes. */
  function FourWords(b: seq<bv8>): (ws: seq<bv32>)
    requires |b| >= 16
    ensures |ws| == 4
  {
    [LoadWord(b[0..4]), LoadWord(b[4..8]), LoadWord(b[8..12]), LoadWord(b[12..16])]
  }

  /** `init`: constants, the 128-bit key twice, a zero counter, the iv. */
  function InitState(key: seq<bv8>, iv: seq<bv8>): Matrix
    requires |key| >= 16 && |iv| == 8
  {
    FourWords(TAU) + FourWords(key) + FourWords(key) + [0, 0] + [LoadWord(iv[0..4]), LoadWord(iv[4..8])]
  }

  function Advance(s: Matrix): Matrix {
    var t := s[12 := Up(s[12])];
    if t[12] == 0 then t[13 := Up(t[13])] else t
  }

  function StateAfter(s: Matrix, n: nat): Matrix {
    if n == 0 then s else Advance(StateAfter(s, n - 1))
  }

  /** After n blocks words 12 and 13 count n modulo 2^64, and nothing else has changed. */
  lemma {:induction false} CounterEncodes(s: Matrix, n: nat)
    requires s[12] == 0 && s[13] == 0
    ensures StateAfter(s, n) == WithCount(s, n)
  {
    hide Advance, WithCount;
    if n == 0 {
      CountZero(s);
    } else {
      CounterEncodes(s, n - 1);
      CountUp(s, n);
    }
  }

  function WithCount(s: Matrix, n: nat): Matrix {
    s[12 := WordOf(n)][13 := WordOf(n / 0x1_0000_0000)]
  }

  lemma CountZero(s: Matrix)
    requires s[12] == 0 && s[13] == 0
    ensures WithCount(s, 0) == s
  {
  }

  lemma CountUp(s: Matrix, n: nat)
    requires n > 0
    ensures Advance(WithCount(s, n - 1)) == WithCount(s, n)
  {
    hide WordOf, Up;
    var t, hi := WithCount(s, n - 1), (n - 1) / 0x1_0000_0000;
    WordStep(n - 1);
    WordIsZero(n);
    WordStep(hi);
    assert t[12] == WordOf(n - 1) && t[13] == WordOf(hi);
    assert n / 0x1_0000_0000 == if n % 0x1_0000_0000 == 0 then hi + 1 else hi;
  }

  lemma WordStep(n: nat)
    ensures WordOf(n + 1) == Up(WordOf(n))
  {
  }

  lemma WordIsZero(n: nat)
    ensures WordOf(n) == 0 <==> n % 0x1_0000_0000 == 0
  {
    WordInjective(n, 0);
  }

  /** Two blocks get the same cipher input exactly when their numbers agree modulo 2^64. */
  lemma DistinctInputs(s: Matrix, n: nat, m: nat)
    requires s[12] == 0 && s[13] == 0
    ensures StateAfter(s, n) == StateAfter(s, m) <==> n % 0x1_0000_0000_0000_0000 == m % 0x1_0000_0000_0000_0000
  {
    CounterEncodes(s, n);
    CounterEncodes(s, m);
    var a, b := StateAfter(s, n), StateAfter(s, m);
    WordInjective(n, m);
    WordInjective(n / 0x1_0000_0000, m / 0x1_0000_0000);
    SplitModulus(n);
    SplitModulus(m);
    assert a[12] == WordOf(n) && b[12] == WordOf(m);
    assert a[13] == WordOf(n / 0x1_0000_0000) && b[13] == WordOf(m / 0x1_0000_0000);
  }

  lemma SplitModulus(n: nat)
    ensures n % 0x1_0000_0000_0000_0000 == n % 0x1_0000_0000 + 0x1_0000_0000 * ((n / 0x1_0000_0000) % 0x1_0000_0000)
  {
  }

  /* ----- XOR ----- */

  function Xor8(a: byte, k: bv8): byte { ((a as bv8) ^ k) as byte }

  lemma XorTwice(a: bv8, k: bv8)
    ensures (a ^ k) ^ k == a
  {
  }

  lemma Xor8Involution(a: byte, k: bv8)
    ensures Xor8(Xor8(a, k), k) == a
  {
    ByteOfBits((a as bv8) ^ k);
    XorTwice(a as bv8, k);
    BitsOfByte(a);
  }

  /** A 64-bit load and store on a little-endian host. */
  function Load64(b: seq<bv8>): bv64
    requires |b| == 8
  {
    (b[0] as bv64) | ((b[1] as bv64) << 8) | ((b[2] as bv64) << 16) | ((b[3] as bv64) << 24)
    | ((b[4] as bv64) << 32) | ((b[5] as bv64) << 40) | ((b[6] as bv64) << 48) | ((b[7] as bv64) << 56)
  }

  function Store64(v: bv64): (b: seq<bv8>)
    ensures |b| == 8
  {
    [(v & 0xFF) as bv8, ((v >> 8) & 0xFF) as bv8, ((v >> 16) & 0xFF) as bv8, ((v >> 24) & 0xFF) as bv8,
     ((v >> 32) & 0xFF) as bv8, ((v >> 40) & 0xFF) as bv8, ((v >> 48) & 0xFF) as bv8, ((v >> 56) & 0xFF) as bv8]
  }

  /** XOR of two 64-bit words is XOR byte by byte. */
  lemma Xor64Bytewise(a: seq<bv8>, b: seq<bv8>)
    requires |a| == 8 && |b| == 8
    ensures Store64(Load64(a) ^ Load64(b)) == seq(8, i requires 0 <= i < 8 => a[i] ^ b[i])
  {
  }

  /* ----- blocks in place ----- */

  /** The frame with the bytes from `off` on combined with the key bytes. */
  function XorAt(d: Frame, off: nat, ks: seq<bv8>): (r: Frame)
    requires off + |ks| <= |d|
    ensures |r| == |d|
  {
    seq(|d|, j requires 0 <= j < |d| => if off <= j < off + |ks| then Xor8(d[j], ks[j - off]) else d[j])
  }

  lemma XorAtAppend(d: Frame, off: nat, a: seq<bv8>, b: seq<bv8>)
    requires off + |a| + |b| <= |d|
    ensures XorAt(XorAt(d, off, a), off + |a|, b) == XorAt(d, off, a + b)
  {
    hide Xor8;
  }

  lemma XorAtNothing(d: Frame, off: nat)
    requires off <= |d|
    ensures XorAt(d, off, []) == d
  {
  }

  lemma XorAtTwice(d: Frame, off: nat, ks: seq<bv8>)
    requires off + |ks| <= |d|
    ensures XorAt(XorAt(d, off, ks), off, ks) == d
  {
    hide Xor8;
    var e := XorAt(XorAt(d, off, ks), off, ks);
    forall j | 0 <= j < |d| ensures e[j] == d[j] {
      if off <= j < off + |ks| { Xor8Involution(d[j], ks[j - off]); }
    }
  }

  function Bits(b: seq<byte>): (r: seq<bv8>)
    ensures |r| == |b|
  {
    seq(|b|, i requires 0 <= i < |b| => b[i] as bv8)
  }

  function Numbers(b: seq<bv8>): (r: seq<byte>)
    ensures |r| == |b|
  {
    seq(|b|, i requires 0 <= i < |b| => b[i] as byte)
  }

  /** One of the eight 64-bit XORs of `next`. */
  method XorWord(pkt: Packet, off: nat, x: seq<bv8>)
    requires |x| == 8 && off + 8 <= |pkt.data|
    modifies pkt
    ensures pkt.data == XorAt(old(pkt.data), off, x)
  {
    hide Load64, Store64;
    var m := Bits(pkt.data[off..off + 8]);
    Xor64Bytewise(m, x);
    pkt.Store(off, Numbers(Store64(Load64(m) ^ Load64(x))));
  }

  class Context {
    var state: Matrix
    var rounds: byte

    /** `init_ctx` and `init`. */
    constructor (key: seq<bv8>, iv: seq<bv8>, r: byte)
      requires |key| >= 16 && |iv| == 8
      ensures state == InitState(key, iv) && rounds == r
    {
      state, rounds := InitState(key, iv), r;
    }

    /** `next`: one block of key stream, the counter, and the XOR into the packet. */
    method Next(pkt: Packet, m: nat)
      requires m + BLOCK <= |pkt.data|
      modifies this`state, pkt
      ensures state == Advance(old(state))
      ensures pkt.data == XorAt(old(pkt.data), m, Keystream(old(state), rounds))
    {
      hide Keystream, XorAt, Advance;
      var out := new bv8[64];
      DoubleRounds(out, state, rounds);
      var x := out[..];
      Step();
      XorBlock(pkt, m, x);
    }

    method Step()
      modifies this`state
      ensures state == Advance(old(state))
    {
      state := state[12 := Up(state[12])];
      if state[12] == 0 { state := state[13 := Up(state[13])]; }
    }
  }

  method XorBlock(pkt: Packet, m: nat, x: seq<bv8>)
    requires |x| == 64 && m + BLOCK <= |pkt.data|
    modifies pkt
    ensures pkt.data == XorAt(old(pkt.data), m, x)
  {
    hide Xor8;
    ghost var d := pkt.data;
    assert XorAt(d, m, x[..0]) == d;
    for i := 0 to 8
      invariant pkt.data == XorAt(d, m, x[..8 * i])
    {
      XorWord(pkt, m + 8 * i, x[8 * i..8 * i + 8]);
      XorAtAppend(d, m, x[..8 * i], x[8 * i..8 * i + 8]);
      assert x[..8 * i] + x[8 * i..8 * i + 8] == x[..8 * (i + 1)];
    }
    assert x[..64] == x;
  }

  /* ----- the payload loop ----- */

  /** The key bytes of the first n blocks. */
  function Stream(s: Matrix, rounds: byte, n: nat): (b: seq<bv8>)
    ensures |b| == BLOCK * n
  {
    if n == 0 then [] else Stream(s, rounds, n - 1) + Keystream(StateAfter(s, n - 1), rounds)
  }

  function Blocks(payload: nat): (n: nat)
    ensures n * BLOCK <= payload
  {
    if payload / BLOCK < MAX_BLOCKS then payload / BLOCK else MAX_BLOCKS
  }

  /** The cipher with its built-in zero key and zero iv. */
  function ZeroState(): Matrix { InitState(seq(32, _ => 0), seq(8, _ => 0)) }

  function Ciphered(d: Frame, off: nat): (r: Frame)
    requires off <= |d|
    ensures |r| == |d|
  {
    XorAt(d, off, Stream(ZeroState(), CHACHA_ROUNDS, Blocks(|d| - off)))
  }

  method EncryptPayload(pkt: Packet, off: nat)
    requires off <= |pkt.data|
    modifies pkt
    ensures pkt.data == Ciphered(old(pkt.data), off)
  {
    hide Keystream, InitState, Advance, XorAt;
    ghost var d := pkt.data;
    var key: seq<bv8>, iv: seq<bv8> := seq(32, _ => 0), seq(8, _ => 0);
    var ctx := new Context(key, iv, CHACHA_ROUNDS);
    ghost var s := ctx.state;
    var pos, i := off, 0;
    XorAtNothing(d, off);
    while i <= 23
      invariant i <= MAX_BLOCKS && pos == off + BLOCK * i && pos <= |d| && i <= Blocks(|d| - off)
      invariant ctx.state == StateAfter(s, i) && ctx.rounds == CHACHA_ROUNDS
      invariant pkt.data == XorAt(d, off, Stream(s, CHACHA_ROUNDS, i))
    {
      if pos + 64 > |pkt.data| { break; }
      ctx.Next(pkt, pos);
      XorAtAppend(d, off, Stream(s, CHACHA_ROUNDS, i), Keystream(StateAfter(s, i), CHACHA_ROUNDS));
      pos := pos + 64;
      i := i + 1;
    }
    assert i == Blocks(|d| - off);
  }

  /** Running the loop again restores the payload; nothing outside the first 64 * min(24, len / 64) payload
      bytes ever changes. */
  lemma CipherInvolution(d: Frame, off: nat)
    requires off <= |d|
    ensures Ciphered(Ciphered(d, off), off) == d
    ensures var whole := (|d| - off) / 64;
            forall j :: 0 <= j < |d| && !(off <= j < off + 64 * (if whole < 24 then whole else 24)) ==>
              Ciphered(d, off)[j] == d[j]
  {
    hide Stream, ZeroState, Xor8;
    XorAtTwice(d, off, Stream(ZeroState(), CHACHA_ROUNDS, Blocks(|d| - off)));
  }

  /** No two blocks of a packet are combined with the key stream of the same cipher input. */
  lemma BlocksDistinct(i: nat, j: nat)
    requires i < j < MAX_BLOCKS
    ensures StateAfter(ZeroState(), i) != StateAfter(ZeroState(), j)
  {
    hide StateAfter, ZeroState;
    ZeroCounter();
    DistinctInputs(ZeroState(), i, j);
  }

  lemma ZeroCounter()
    ensures ZeroState()[12] == 0 && ZeroState()[13] == 0
  {
    hide LoadWord, FourWords;
  }

  /** What `init` puts where: the constants as words, the key words twice, a zero counter, the iv. */
  lemma InitLayout(key: seq<bv8>, iv: seq<bv8>)
    requires |key| >= 16 && |iv| == 8
    ensures var s := InitState(key, iv);
            && s[..4] == [0x6170_7865, 0x3120_646e, 0x7962_2d36, 0x6b20_6574]
            && s[4..8] == s[8..12]
            && s[4..8] == [LoadWord(key[0..4]), LoadWord(key[4..8]), LoadWord(key[8..12]), LoadWord(key[12..16])]
            && s[12] == 0 && s[13] == 0 && s[14] == LoadWord(iv[0..4]) && s[15] == LoadWord(iv[4..8])
  {
    ConstantWords();
    hide LoadWord;
  }

  lemma ConstantWords()
    ensures FourWords(TAU) == [0x6170_7865, 0x3120_646e, 0x7962_2d36, 0x6b20_6574]
  {
    assert TAU[0..4] == [0x65, 0x78, 0x70, 0x61] && TAU[4..8] == [0x6e, 0x64, 0x20, 0x31];
    assert TAU[8..12] == [0x36, 0x2d, 0x62, 0x79] && TAU[12..16] == [0x74, 0x65, 0x20, 0x6b];
  }

  /** Every byte of the first 64 * min(24, len / 64) payload bytes is combined with its byte of the key
      stream of its block's counter. */
  lemma PayloadByte(d: Frame, off: nat, block: nat, t: nat)
    requires off <= |d| && block < 24 && t < 64 && off + 64 * (block + 1) <= |d|
    ensures var key := Keystream(WithCount(ZeroState(), block), 8)[t];
            Ciphered(d, off)[off + 64 * block + t] == ((d[off + 64 * block + t] as bv8) ^ key) as byte
  {
    hide Keystream, ZeroState, WithCount, Stream, StateAfter, XorAt;
    ZeroCounter();
    CounterEncodes(ZeroState(), block);
    StreamByte(ZeroState(), CHACHA_ROUNDS, Blocks(|d| - off), block, t);
    XorAtByte(d, off, Stream(ZeroState(), CHACHA_ROUNDS, Blocks(|d| - off)), 64 * block + t);
  }

  lemma XorAtByte(d: Frame, off: nat, ks: seq<bv8>, j: nat)
    requires off + |ks| <= |d| && j < |ks|
    ensures XorAt(d, off, ks)[off + j] == ((d[off + j] as bv8) ^ ks[j]) as byte
  {
  }

  lemma {:induction false} StreamByte(s: Matrix, rounds: byte, n: nat, block: nat, t: nat)
    requires block < n && t < 64
    ensures Stream(s, rounds, n)[64 * block + t] == Keystream(StateAfter(s, block), rounds)[t]
  {
    hide Keystream, StateAfter;
    if block < n - 1 { StreamByte(s, rounds, n - 1, block, t); }
  }
}
