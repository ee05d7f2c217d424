/** The three Jenkins hash variants and their agreement. */
module Jhash {
  import opened Words

  const JHASH_INITVAL: bv32 := 0xdead_beef

  datatype Abc = Abc(a: bv32, b: bv32, c: bv32)

  /** One triple of the macros: x -= z; x ^= z <<< r; z += y. */
  function MixLine(x: bv32, y: bv32, z: bv32, r: bv6): (bv32, bv32)
    requires 0 < r < 32
  {
    (Xor(Minus(x, z), Rotl(z, r)), Plus(z, y))
  }

  function Mix(s: Abc): Abc {
    var (a1, c1) := MixLine(s.a, s.b, s.c, 4);
    var (b1, a2) := MixLine(s.b, c1, a1, 6);
    var (c2, b2) := MixLine(c1, a2, b1, 8);
    var (a3, c3) := MixLine(a2, b2, c2, 16);
    var (b3, a4) := MixLine(b2, c3, a3, 19);
    var (c4, b4) := MixLine(c3, a4, b3, 4);
    Abc(a4, b4, c4)
  }

  function UnmixLine(x: bv32, y: bv32, z: bv32, r: bv6): (bv32, bv32)
    requires 0 < r < 32
  {
    (Plus(Xor(x, Rotl(Minus(z, y), r)), Minus(z, y)), Minus(z, y))
  }

  function Unmix(s: Abc): Abc {
    var (c3, b3) := UnmixLine(s.c, s.a, s.b, 4);
    var (b2, a3) := UnmixLine(b3, c3, s.a, 19);
    var (a2, c2) := UnmixLine(a3, b2, c3, 16);
    var (c1, b1) := UnmixLine(c2, a2, b2, 8);
    var (b0, a1) := UnmixLine(b1, c1, a2, 6);
    var (a0, c0) := UnmixLine(a1, b0, c1, 4);
    Abc(a0, b0, c0)
  }

  lemma LineInverse(x: bv32, y: bv32, z: bv32, r: bv6)
    requires 0 < r < 32
    ensures var (x', z') := MixLine(x, y, z, r); UnmixLine(x', y, z', r) == (x, z)
    ensures var (x', z') := UnmixLine(x, y, z, r); MixLine(x', y, z', r) == (x, z)
  {
    hide Rotl, Plus, Minus, Xor;
    AddBack(z, y);
    SubtractBack(z, y);
    XorBack(Rotl(z, r), Minus(x, z));
    SubtractBack(x, z);
    XorBack(Rotl(Minus(z, y), r), x);
    AddBack(Xor(x, Rotl(Minus(z, y), r)), Minus(z, y));
  }

  /** Mixing loses nothing: it has a two-sided inverse. */
  lemma MixBijective(s: Abc)
    ensures Unmix(Mix(s)) == s && Mix(Unmix(s)) == s
  {
    hide MixLine, UnmixLine;
    var (a1, c1) := MixLine(s.a, s.b, s.c, 4);
    var (b1, a2) := MixLine(s.b, c1, a1, 6);
    var (c2, b2) := MixLine(c1, a2, b1, 8);
    var (a3, c3) := MixLine(a2, b2, c2, 16);
    var (b3, a4) := MixLine(b2, c3, a3, 19);
    LineInverse(s.a, s.b, s.c, 4);
    LineInverse(s.b, c1, a1, 6);
    LineInverse(c1, a2, b1, 8);
    LineInverse(a2, b2, c2, 16);
    LineInverse(b2, c3, a3, 19);
    LineInverse(c3, a4, b3, 4);
    MixAfterUnmix(s);
  }

  lemma MixAfterUnmix(s: Abc)
    ensures Mix(Unmix(s)) == s
  {
    hide MixLine, UnmixLine;
    var (c3, b3) := UnmixLine(s.c, s.a, s.b, 4);
    var (b2, a3) := UnmixLine(b3, c3, s.a, 19);
    var (a2, c2) := UnmixLine(a3, b2, c3, 16);
    var (c1, b1) := UnmixLine(c2, a2, b2, 8);
    var (b0, a1) := UnmixLine(b1, c1, a2, 6);
    LineInverse(s.c, s.a, s.b, 4);
    LineInverse(b3, c3, s.a, 19);
    LineInverse(a3, b2, c3, 16);
    LineInverse(c2, a2, b2, 8);
    LineInverse(b1, c1, a2, 6);
    LineInverse(a1, b0, c1, 4);
  }

  /** One pair of the macro: x ^= y; x -= y <<< r. */
  function FinalLine(x: bv32, y: bv32, r: bv6): bv32
    requires 0 < r < 32
  {
    Minus(Xor(x, y), Rotl(y, r))
  }

  function Final(s: Abc): bv32 {
    var c1 := FinalLine(s.c, s.b, 14);
    var a1 := FinalLine(s.a, c1, 11);
    var b1 := FinalLine(s.b, a1, 25);
    var c2 := FinalLine(c1, b1, 16);
    var a2 := FinalLine(a1, c2, 4);
    var b2 := FinalLine(b1, a2, 14);
    FinalLine(c2, b2, 24)
  }

  /* ----- jhash, over bytes ----- */

  function Shifted(b: bv8, n: bv6): bv32 requires n <= 24 { (b as bv32) << n }

  /** Adds the bytes of one word from the last one present down to the first. */
  function AddBytes(x: bv32, b: seq<bv8>): bv32
    requires |b| <= 4
  {
    var x3 := if |b| > 3 then Plus(x, Shifted(b[3], 24)) else x;
    var x2 := if |b| > 2 then Plus(x3, Shifted(b[2], 16)) else x3;
    var x1 := if |b| > 1 then Plus(x2, Shifted(b[1], 8)) else x2;
    if |b| > 0 then Plus(x1, Shifted(b[0], 0)) else x1
  }

  function Upto<T>(s: seq<T>, i: nat, j: nat): (r: seq<T>)
    requires i <= j
    ensures |r| <= j - i
  {
    s[if i < |s| then i else |s| .. if j < |s| then j else |s|]
  }

  /** The fall-through switch on the last block. */
  function ByteTail(s: Abc, k: seq<bv8>): bv32
    requires |k| <= 12
  {
    if k == [] then s.c
    else Final(Abc(AddBytes(s.a, Upto(k, 0, 4)), AddBytes(s.b, Upto(k, 4, 8)), AddBytes(s.c, Upto(k, 8, 12))))
  }

  function ByteBlock(s: Abc, k: seq<bv8>): Abc
    requires |k| >= 12
  {
    Mix(Abc(Plus(s.a, LoadWord(k[0..4])), Plus(s.b, LoadWord(k[4..8])), Plus(s.c, LoadWord(k[8..12]))))
  }

  function HashBytes(s: Abc, k: seq<bv8>): bv32
    decreases |k|
  {
    if |k| > 12 then HashBytes(ByteBlock(s, k), k[12..]) else ByteTail(s, k)
  }

  function Start(length: bv32, initval: bv32): Abc {
    var x := Plus(Plus(JHASH_INITVAL, length), initval);
    Abc(x, x, x)
  }

  function JhashSpec(k: seq<bv8>, initval: bv32): bv32 {
    HashBytes(Start(WordOf(|k|), initval), k)
  }

  method Jhash(k: seq<bv8>, initval: bv32) returns (h: bv32)
    requires |k| < 0x1_0000_0000
    ensures h == JhashSpec(k, initval)
  {
    hide ByteBlock, ByteTail, Start;
    var s := Start(WordOf(|k|), initval);
    var pos, length := 0, |k|;
    assert k[0..] == k;
    while length > 12
      invariant 0 <= pos <= |k| && pos + length == |k|
      invariant HashBytes(s, k[pos..]) == JhashSpec(k, initval)
    {
      s := ByteBlock(s, k[pos..]);
      assert k[pos..][12..] == k[pos + 12..];
      length := length - 12;
      pos := pos + 12;
    }
    h := LastBlock(s, k[pos..]);
  }

  /** The switch, case by case. */
  method LastBlock(s: Abc, k: seq<bv8>) returns (h: bv32)
    requires |k| <= 12
    ensures h == ByteTail(s, k)
  {
    hide Final, Shifted, Plus, Upto;
    var a, b, c := s.a, s.b, s.c;
    var n := |k|;
    UptoIs(k, 0, 4);
    UptoIs(k, 4, 8);
    UptoIs(k, 8, 12);
    if n >= 12 { c := Plus(c, Shifted(k[11], 24)); }
    if n >= 11 { c := Plus(c, Shifted(k[10], 16)); }
    if n >= 10 { c := Plus(c, Shifted(k[9], 8)); }
    if n >= 9 { c := Plus(c, Shifted(k[8], 0)); }
    assert c == AddBytes(s.c, Upto(k, 8, 12));
    if n >= 8 { b := Plus(b, Shifted(k[7], 24)); }
    if n >= 7 { b := Plus(b, Shifted(k[6], 16)); }
    if n >= 6 { b := Plus(b, Shifted(k[5], 8)); }
    if n >= 5 { b := Plus(b, Shifted(k[4], 0)); }
    assert b == AddBytes(s.b, Upto(k, 4, 8));
    if n >= 4 { a := Plus(a, Shifted(k[3], 24)); }
    if n >= 3 { a := Plus(a, Shifted(k[2], 16)); }
    if n >= 2 { a := Plus(a, Shifted(k[1], 8)); }
    if n >= 1 {
      a := Plus(a, Shifted(k[0], 0));
      return Final(Abc(a, b, c));
    }
    return c;
  }

  /** The bytes of one word that are there. */
  lemma UptoIs<T>(k: seq<T>, i: nat, e: nat)
    requires e == i + 4
    ensures |Upto(k, i, e)| == if |k| <= i then 0 else if |k| < e then |k| - i else 4
    ensures forall j :: 0 <= j < |Upto(k, i, e)| ==> Upto(k, i, e)[j] == k[i + j]
  {
  }

  /* ----- jhash2, over words ----- */

  function WordTail(s: Abc, k: seq<bv32>): bv32
    requires |k| <= 3
  {
    if k == [] then s.c
    else Final(Abc(Plus(s.a, k[0]), if |k| > 1 then Plus(s.b, k[1]) else s.b, if |k| > 2 then Plus(s.c, k[2]) else s.c))
  }

  function WordBlock(s: Abc, k: seq<bv32>): Abc
    requires |k| >= 3
  {
    Mix(Abc(Plus(s.a, k[0]), Plus(s.b, k[1]), Plus(s.c, k[2])))
  }

  function HashWords(s: Abc, k: seq<bv32>): bv32
    decreases |k|
  {
    if |k| > 3 then HashWords(WordBlock(s, k), k[3..]) else WordTail(s, k)
  }

  function Jhash2Spec(k: seq<bv32>, initval: bv32): bv32 {
    HashWords(Start(Times4(WordOf(|k|)), initval), k)
  }

  method Jhash2(k: seq<bv32>, initval: bv32) returns (h: bv32)
    requires |k| < 0x1_0000_0000
    ensures h == Jhash2Spec(k, initval)
  {
    hide Mix, Final, Plus;
    var s := Start(Times4(WordOf(|k|)), initval);
    var pos, length := 0, |k|;
    assert k[0..] == k;
    while length > 3
      invariant 0 <= pos <= |k| && pos + length == |k|
      invariant HashWords(s, k[pos..]) == Jhash2Spec(k, initval)
    {
      assert k[pos..][3..] == k[pos + 3..];
      s := Mix(Abc(Plus(s.a, k[pos]), Plus(s.b, k[pos + 1]), Plus(s.c, k[pos + 2])));
      length := length - 3;
      pos := pos + 3;
    }
    var a, b, c := s.a, s.b, s.c;
    if length >= 3 { c := Plus(c, k[pos + 2]); }
    if length >= 2 { b := Plus(b, k[pos + 1]); }
    if length >= 1 {
      a := Plus(a, k[pos]);
      return Final(Abc(a, b, c));
    }
    return c;
  }

  /* ----- fixed numbers of words ----- */

  /** `__jhash_nwords`. */
  function Nwords(a: bv32, b: bv32, c: bv32, initval: bv32): bv32 {
    Final(Abc(Plus(a, initval), Plus(b, initval), Plus(c, initval)))
  }

  function Jhash3Words(a: bv32, b: bv32, c: bv32, initval: bv32): bv32 {
    Nwords(a, b, c, Plus(Plus(initval, JHASH_INITVAL), 12))
  }

  function Jhash2Words(a: bv32, b: bv32, initval: bv32): bv32 {
    Nwords(a, b, 0, Plus(Plus(initval, JHASH_INITVAL), 8))
  }

  function Jhash1Word(a: bv32, initval: bv32): bv32 {
    Nwords(a, 0, 0, Plus(Plus(initval, JHASH_INITVAL), 4))
  }

  lemma SmallCounts()
    ensures Times4(WordOf(1)) == 4 && Times4(WordOf(2)) == 8 && Times4(WordOf(3)) == 12
  {
    assert WordOf(1) == 1;
    assert WordOf(2) == 2;
  }

  /** The order of the three summands does not matter. */
  lemma SameStart(length: bv32, initval: bv32)
    ensures Plus(Plus(initval, JHASH_INITVAL), length) == Plus(Plus(JHASH_INITVAL, length), initval)
  {
    hide Plus;
    PlusAssociative(initval, JHASH_INITVAL, length);
    PlusCommutative(initval, Plus(JHASH_INITVAL, length));
  }

  lemma PlusZero(x: bv32)
    ensures Plus(0, x) == x
  {
  }

  /** The fixed variants are the word hash of arrays of their length. */
  lemma FixedAgree(a: bv32, b: bv32, c: bv32, initval: bv32)
    ensures Jhash3Words(a, b, c, initval) == Jhash2Spec([a, b, c], initval)
    ensures Jhash2Words(a, b, initval) == Jhash2Spec([a, b], initval)
    ensures Jhash1Word(a, initval) == Jhash2Spec([a], initval)
  {
    hide Final, Plus;
    SmallCounts();
    NwordsAgree([a, b, c], 12, initval);
    NwordsAgree([a, b], 8, initval);
    NwordsAgree([a], 4, initval);
  }

  lemma NwordsAgree(k: seq<bv32>, length: bv32, initval: bv32)
    requires 1 <= |k| <= 3 && Times4(WordOf(|k|)) == length
    ensures Nwords(k[0], if |k| > 1 then k[1] else 0, if |k| > 2 then k[2] else 0,
                   Plus(Plus(initval, JHASH_INITVAL), length))
         == Jhash2Spec(k, initval)
  {
    hide Final, Plus, Times4;
    SameStart(length, initval);
    var x := Plus(Plus(JHASH_INITVAL, length), initval);
    PlusZero(x);
    PlusCommutative(k[0], x);
    if |k| > 1 { PlusCommutative(k[1], x); }
    if |k| > 2 { PlusCommutative(k[2], x); }
  }

  /* ----- bytes against words ----- */

  lemma FourBytes(x: bv32, b: seq<bv8>)
    requires |b| == 4
    ensures AddBytes(x, b) == Plus(x, LoadWord(b))
  {
    hide Plus, Shifted, LoadWord;
    var p, q, r, t := Shifted(b[3], 24), Shifted(b[2], 16), Shifted(b[1], 8), Shifted(b[0], 0);
    WordIsSum(b);
    PlusAssociative(x, p, q);
    PlusAssociative(x, Plus(p, q), r);
    PlusAssociative(x, Plus(Plus(p, q), r), t);
  }

  lemma WordIsSum(b: seq<bv8>)
    requires |b| == 4
    ensures LoadWord(b) == Plus(Plus(Plus(Shifted(b[3], 24), Shifted(b[2], 16)), Shifted(b[1], 8)), Shifted(b[0], 0))
  {
  }

  /** Hashing the little-endian bytes of an array of words is hashing the words. */
  lemma {:induction false} HashesAgree(s: Abc, ws: seq<bv32>)
    ensures HashBytes(s, Serialize(ws)) == HashWords(s, ws)
    decreases |ws|
  {
    hide Mix, Final, StoreWord, LoadWord, AddBytes, Plus, ByteTail, WordTail;
    var k := Serialize(ws);
    if |ws| > 3 {
      ThreeWords(ws);
      HashesAgree(WordBlock(s, ws), ws[3..]);
    } else {
      TailsAgree(s, ws);
    }
  }

  lemma ThreeWords(ws: seq<bv32>)
    requires |ws| >= 3
    ensures var k := Serialize(ws);
            && |k| >= 12 && k[12..] == Serialize(ws[3..])
            && LoadWord(k[0..4]) == ws[0] && LoadWord(k[4..8]) == ws[1] && LoadWord(k[8..12]) == ws[2]
  {
    hide StoreWord, LoadWord, Serialize;
    WordAt(ws, 0);
    WordAt(ws, 1);
    WordAt(ws, 2);
    SerializeConcat(ws[..3], ws[3..]);
    assert ws == ws[..3] + ws[3..];
  }

  lemma WordAt(ws: seq<bv32>, i: nat)
    requires i < |ws|
    ensures LoadWord(Serialize(ws)[4 * i..4 * i + 4]) == ws[i]
  {
    hide StoreWord, LoadWord, Serialize;
    SerializeAt(ws, i);
    WordRoundTrip(ws[i]);
  }

  lemma TailsAgree(s: Abc, ws: seq<bv32>)
    requires |ws| <= 3
    ensures ByteTail(s, Serialize(ws)) == WordTail(s, ws)
  {
    hide Final, StoreWord, LoadWord, Plus, AddBytes, Upto;
    var k := Serialize(ws);
    assert k == [] <==> ws == [];
    if |ws| > 0 { WordInTail(s.a, ws, 0); }
    WordInTail(s.b, ws, 1);
    WordInTail(s.c, ws, 2);
  }

  lemma WordInTail(x: bv32, ws: seq<bv32>, i: nat)
    requires i < 3
    ensures AddBytes(x, Upto(Serialize(ws), 4 * i, 4 * i + 4)) == if i < |ws| then Plus(x, ws[i]) else x
  {
    hide StoreWord, LoadWord, AddBytes, Plus, Upto;
    BytesOfWord(ws, i);
    if i < |ws| {
      FourBytes(x, StoreWord(ws[i]));
      WordRoundTrip(ws[i]);
    } else {
      NoBytes(x);
    }
  }

  lemma BytesOfWord(ws: seq<bv32>, i: nat)
    ensures Upto(Serialize(ws), 4 * i, 4 * i + 4) == if i < |ws| then StoreWord(ws[i]) else []
  {
    hide StoreWord, Serialize;
    if i < |ws| { SerializeAt(ws, i); }
  }

  /** The bytes b with zeros behind them, as a word. */
  function Padded(b: seq<bv8>): bv32
    requires |b| <= 4
  {
    LoadWord(b + seq(4 - |b|, _ => 0))
  }

  /** Adding the bytes that are there is adding the word they make with zeros behind them. */
  lemma AddBytesPadded(x: bv32, b: seq<bv8>)
    requires |b| <= 4
    ensures AddBytes(x, b) == Plus(x, Padded(b))
  {
    hide Plus, Shifted, LoadWord, AddBytes;
    var p := b + seq(4 - |b|, _ => 0);
    FourBytes(x, p);
    ZerosAddNothing(x, b, p);
  }

  lemma ZerosAddNothing(x: bv32, b: seq<bv8>, p: seq<bv8>)
    requires |b| <= 4 && |p| == 4 && b <= p && forall j :: |b| <= j < 4 ==> p[j] == 0
    ensures AddBytes(x, p) == AddBytes(x, b)
  {
    hide Plus, Shifted;
    ShiftedZero();
    forall y ensures Plus(y, 0) == y { PlusNothing(y); }
  }

  lemma ShiftedZero()
    ensures Shifted(0, 0) == 0 && Shifted(0, 8) == 0 && Shifted(0, 16) == 0 && Shifted(0, 24) == 0
  {
  }

  lemma PlusNothing(y: bv32)
    ensures Plus(y, 0) == y
  {
  }

  /** The last block counts as the three words its bytes make with zeros behind them; nothing left, no final mix. */
  lemma TailPadded(s: Abc, k: seq<bv8>)
    requires |k| <= 12
    ensures ByteTail(s, k) ==
            if k == [] then s.c
            else Final(Abc(Plus(s.a, Padded(Upto(k, 0, 4))), Plus(s.b, Padded(Upto(k, 4, 8))),
                           Plus(s.c, Padded(Upto(k, 8, 12)))))
  {
    hide Final, Plus, AddBytes, Padded, Upto;
    AddBytesPadded(s.a, Upto(k, 0, 4));
    AddBytesPadded(s.b, Upto(k, 4, 8));
    AddBytesPadded(s.c, Upto(k, 8, 12));
  }

  lemma NoBytes(x: bv32)
    ensures AddBytes(x, []) == x
  {
  }

  /** `jhash` over the little-endian bytes of an array equals `jhash2` over its words. */
  lemma VariantsAgree(ws: seq<bv32>, initval: bv32)
    ensures JhashSpec(Serialize(ws), initval) == Jhash2Spec(ws, initval)
  {
    WordTimesFour(|ws|);
    HashesAgree(Start(Times4(WordOf(|ws|)), initval), ws);
  }
}
