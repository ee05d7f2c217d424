/** 32-bit words as bit patterns, and the numbers they stand for. */
module Words {
  /** The word n modulo 2^32, counted up from zero. */
  function WordOf(n: nat): bv32 {
    if n == 0 then 0 else Up(WordOf(n - 1))
  }

  function Up(v: bv32): bv32 { v + 1 }
  function Half(v: bv32): bv32 { v >> 1 }
  predicate Odd(v: bv32) { v & 1 == 1 }

  /** The number the k low bits of a word stand for. */
  function Digits(v: bv32, k: nat): nat {
    if k == 0 then 0 else (if Odd(v) then 1 else 0) + 2 * Digits(Half(v), k - 1)
  }

  function Value(v: bv32): nat { Digits(v, 32) }

  /** k ones. */
  function Mask(k: nat): bv32 {
    if k == 0 then 0 else (Mask(k - 1) << 1) | 1
  }

  function Power(k: nat): nat {
    if k == 0 then 1 else 2 * Power(k - 1)
  }

  lemma FullWidth()
    ensures Mask(32) == 0xFFFF_FFFF && Power(32) == 0x1_0000_0000
  {
    assert Mask(4) == 0xF && Power(4) == 0x10;
    assert Mask(8) == 0xFF && Power(8) == 0x100;
    assert Mask(12) == 0xFFF && Power(12) == 0x1000;
    assert Mask(16) == 0xFFFF && Power(16) == 0x1_0000;
    assert Mask(20) == 0xF_FFFF && Power(20) == 0x10_0000;
    assert Mask(24) == 0xFF_FFFF && Power(24) == 0x100_0000;
    assert Mask(28) == 0xFFF_FFFF && Power(28) == 0x1000_0000;
  }

  lemma LowBit(v: bv32)
    ensures !Odd(v) ==> Odd(Up(v)) && Half(Up(v)) == Half(v)
    ensures Odd(v) && v != 0xFFFF_FFFF ==> !Odd(Up(v)) && Half(Up(v)) == Up(Half(v)) && Half(v) != 0xFFFF_FFFF
  {
  }

  lemma {:induction false} DigitsSuccessor(v: bv32, k: nat)
    requires v != 0xFFFF_FFFF && k > 0
    ensures Digits(Up(v), k) == Digits(v, k) + 1 || (Digits(Up(v), k) == 0 && Digits(v, k) == Power(k) - 1)
    decreases k
  {
    hide Odd, Half, Up;
    LowBit(v);
    if Odd(v) && k > 1 { DigitsSuccessor(Half(v), k - 1); }
  }

  lemma MaskStep(v: bv32, u: bv32, m: bv32)
    requires Half(v) & m == Half(u) & m && Odd(v) == Odd(u)
    ensures v & ((m << 1) | 1) == u & ((m << 1) | 1)
  {
  }

  lemma {:induction false} DigitsInjective(v: bv32, u: bv32, k: nat)
    requires Digits(v, k) == Digits(u, k)
    ensures v & Mask(k) == u & Mask(k)
    decreases k
  {
    hide Odd, Half;
    if k > 0 {
      SameLowDigit(v, u, k);
      DigitsInjective(Half(v), Half(u), k - 1);
      MaskStep(v, u, Mask(k - 1));
    }
  }

  lemma SameLowDigit(v: bv32, u: bv32, k: nat)
    requires k > 0 && Digits(v, k) == Digits(u, k)
    ensures Odd(v) == Odd(u) && Digits(Half(v), k - 1) == Digits(Half(u), k - 1)
  {
    hide Odd, Half;
  }

  lemma ValueInjective(v: bv32, u: bv32)
    requires Value(v) == Value(u)
    ensures v == u
  {
    DigitsInjective(v, u, 32);
    FullWidth();
  }

  lemma ValueOfOnes()
    ensures Value(0xFFFF_FFFF) == 0xFFFF_FFFF
  {
    assert Digits(0x3, 2) == 0x3;
    assert Digits(0xF, 4) == 0xF;
    assert Digits(0x3F, 6) == 0x3F;
    assert Digits(0xFF, 8) == 0xFF;
    assert Digits(0x3FF, 10) == 0x3FF;
    assert Digits(0xFFF, 12) == 0xFFF;
    assert Digits(0x3FFF, 14) == 0x3FFF;
    assert Digits(0xFFFF, 16) == 0xFFFF;
    assert Digits(0x3_FFFF, 18) == 0x3_FFFF;
    assert Digits(0xF_FFFF, 20) == 0xF_FFFF;
    assert Digits(0x3F_FFFF, 22) == 0x3F_FFFF;
    assert Digits(0xFF_FFFF, 24) == 0xFF_FFFF;
    assert Digits(0x3FF_FFFF, 26) == 0x3FF_FFFF;
    assert Digits(0xFFF_FFFF, 28) == 0xFFF_FFFF;
    assert Digits(0x3FFF_FFFF, 30) == 0x3FFF_FFFF;
  }

  lemma ValueCases(v: bv32)
    ensures Value(v) < 0x1_0000_0000
    ensures v != 0xFFFF_FFFF ==>
              Value(Up(v)) == Value(v) + 1 || (Value(Up(v)) == 0 && Value(v) == 0xFFFF_FFFF)
  {
    hide Up, Half, Odd;
    FullWidth();
    DigitsBound(v, 32);
    if v != 0xFFFF_FFFF { DigitsSuccessor(v, 32); }
  }

  /** One more is one more, modulo 2^32. */
  lemma ValueSuccessor(v: bv32)
    ensures Value(Up(v)) == (Value(v) + 1) % 0x1_0000_0000
  {
    hide Value, Up;
    ValueOfZero();
    ValueOfOnes();
    ValueCases(v);
    ValueCases(Up(v));
    Wraps(v);
    if v != 0xFFFF_FFFF && Value(Up(v)) == 0 { ValueInjective(Up(v), 0); }
  }

  lemma Wraps(v: bv32)
    ensures Up(v) == 0 <==> v == 0xFFFF_FFFF
  {
  }

  lemma {:induction false} DigitsOfZero(k: nat)
    ensures Digits(0, k) == 0
  {
    if k > 0 { DigitsOfZero(k - 1); }
  }

  lemma {:induction false} DigitsBound(v: bv32, k: nat)
    ensures Digits(v, k) < Power(k)
    decreases k
  {
    hide Half, Odd;
    if k > 0 { DigitsBound(Half(v), k - 1); }
  }

  lemma AddToRemainder(n: nat)
    ensures (n % 0x1_0000_0000 + 1) % 0x1_0000_0000 == (n + 1) % 0x1_0000_0000
  {
  }

  /** Counting up is arithmetic modulo 2^32. */
  lemma {:induction false} ValueOfWord(n: nat)
    ensures Value(WordOf(n)) == n % 0x1_0000_0000
  {
    hide Value, Up;
    if n > 0 {
      ValueOfWord(n - 1);
      ValueSuccessor(WordOf(n - 1));
      AddToRemainder(n - 1);
    } else {
      ValueOfZero();
    }
  }

  lemma ValueOfZero()
    ensures Value(0) == 0
  {
    DigitsOfZero(32);
  }

  /** Two counts give the same word exactly where they agree modulo 2^32. */
  lemma WordInjective(n: nat, m: nat)
    ensures WordOf(n) == WordOf(m) <==> n % 0x1_0000_0000 == m % 0x1_0000_0000
  {
    hide Value;
    ValueOfWord(n);
    ValueOfWord(m);
    if Value(WordOf(n)) == Value(WordOf(m)) { ValueInjective(WordOf(n), WordOf(m)); }
  }

  /* ----- word operations and layouts ----- */

  function Plus(v: bv32, w: bv32): bv32 { v + w }
  function Minus(v: bv32, w: bv32): bv32 { v - w }
  function Xor(v: bv32, w: bv32): bv32 { v ^ w }

  function Rotl(v: bv32, c: bv6): bv32 requires 0 < c < 32 { (v << c) | (v >> (32 - c)) }
  function Rotr(v: bv32, c: bv6): bv32 requires 0 < c < 32 { (v >> c) | (v << (32 - c)) }

  function LoadWord(b: seq<bv8>): bv32
    requires |b| == 4
  {
    (b[0] as bv32) | ((b[1] as bv32) << 8) | ((b[2] as bv32) << 16) | ((b[3] as bv32) << 24)
  }

  function StoreWord(w: bv32): (b: seq<bv8>)
    ensures |b| == 4
  {
    [(w & 0xFF) as bv8, ((w >> 8) & 0xFF) as bv8, ((w >> 16) & 0xFF) as bv8, ((w >> 24) & 0xFF) as bv8]
  }

  lemma WordRoundTrip(w: bv32)
    ensures LoadWord(StoreWord(w)) == w
  {
  }

  /** The bytes of the words, each little-endian. */
  function Serialize(ws: seq<bv32>): (b: seq<bv8>)
    ensures |b| == 4 * |ws|
  {
    if ws == [] then [] else Serialize(ws[..|ws| - 1]) + StoreWord(ws[|ws| - 1])
  }

  /** The i-th four bytes are those of the i-th word. */
  lemma {:induction false} SerializeAt(ws: seq<bv32>, i: nat)
    requires i < |ws|
    ensures Serialize(ws)[4 * i..4 * i + 4] == StoreWord(ws[i])
  {
    hide StoreWord;
    var rest := ws[..|ws| - 1];
    if i < |rest| {
      SerializeAt(rest, i);
      assert rest[i] == ws[i];
      assert Serialize(ws)[4 * i..4 * i + 4] == Serialize(rest)[4 * i..4 * i + 4];
    }
  }

  lemma {:induction false} SerializeConcat(a: seq<bv32>, b: seq<bv32>)
    ensures Serialize(a + b) == Serialize(a) + Serialize(b)
  {
    hide StoreWord;
    if b == [] {
      assert a + b == a;
    } else {
      assert (a + b)[..|a + b| - 1] == a + b[..|b| - 1];
      SerializeConcat(a, b[..|b| - 1]);
    }
  }

  lemma PlusIs(x: bv32, y: bv32)
    ensures Plus(x, y) == x + y
  {
  }

  lemma PlusSplit(x: bv32, y: bv32, z: bv32)
    ensures Plus(x + y, z) == x + (y + z) && Plus(x, y + z) == x + (y + z)
  {
  }

  lemma PlusAssociative(x: bv32, y: bv32, z: bv32)
    ensures Plus(Plus(x, y), z) == Plus(x, Plus(y, z))
  {
    hide Plus;
    PlusIs(x, y);
    PlusIs(y, z);
    PlusSplit(x, y, z);
  }

  lemma PlusCommutative(x: bv32, y: bv32)
    ensures Plus(x, y) == Plus(y, x)
  {
  }

  lemma WordSucc(n: nat)
    ensures WordOf(n + 1) == Plus(WordOf(n), 1)
  {
  }

  lemma SmallSums()
    ensures Plus(1, 1) == 2 && Plus(2, 1) == 3 && Plus(3, 1) == 4
  {
  }

  lemma PlusFour(u: bv32)
    ensures Plus(Plus(Plus(Plus(u, 1), 1), 1), 1) == Plus(u, 4)
  {
    hide Plus;
    SmallSums();
    PlusAssociative(u, 1, 1);
    PlusAssociative(u, 2, 1);
    PlusAssociative(u, 3, 1);
  }

  lemma MinusOfSum(x: bv32, y: bv32)
    ensures Minus(x + y, y) == x
  {
  }

  lemma PlusOfDifference(x: bv32, y: bv32)
    ensures Plus(x - y, y) == x
  {
  }

  lemma AddBack(x: bv32, y: bv32)
    ensures Minus(Plus(x, y), y) == x
  {
    hide Minus;
    MinusOfSum(x, y);
  }

  lemma SubtractBack(x: bv32, y: bv32)
    ensures Plus(Minus(x, y), y) == x
  {
    hide Plus;
    PlusOfDifference(x, y);
  }

  lemma XorBack(x: bv32, z: bv32)
    ensures Xor(Xor(z, x), x) == z
  {
  }

  function Times4(v: bv32): bv32 { v << 2 }

  lemma Times4Plus(v: bv32)
    ensures Times4(Plus(v, 1)) == Plus(Times4(v), 4)
  {
    ShiftedSuccessor(v);
  }

  lemma ShiftedSuccessor(v: bv32)
    ensures (v + 1) << 2 == (v << 2) + 4
  {
  }

  /** Counting by four is counting, shifted by two. */
  lemma {:induction false} WordTimesFour(n: nat)
    ensures WordOf(4 * n) == Times4(WordOf(n))
  {
    if n > 0 {
      hide Plus, Times4;
      WordTimesFour(n - 1);
      var m := 4 * (n - 1);
      WordSucc(m);
      WordSucc(m + 1);
      WordSucc(m + 2);
      WordSucc(m + 3);
      WordSucc(n - 1);
      PlusFour(WordOf(m));
      Times4Plus(WordOf(n - 1));
    }
  }
}
