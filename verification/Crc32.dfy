/** Exclusive or of 32-bit words and its laws. */
module Words {

  function Xor(a: bv32, b: bv32): bv32 { a ^ b }
  function Xor3(a: bv32, b: bv32, c: bv32): bv32 { Xor(Xor(a, b), c) }

  lemma XorCancels(a: bv32, x: bv32)
    ensures Xor(Xor(a, x), x) == a
  {
  }

  lemma XorCommutes(a: bv32, x: bv32)
    ensures Xor(x, a) == Xor(a, x)
  {
  }

  lemma XorSwap(p: bv32, q: bv32, a: bv32, b: bv32)
    ensures Xor(Xor(p, q), Xor(a, b)) == Xor(Xor(p, a), Xor(q, b))
  {
    assert Xor(p ^ q, a ^ b) == Xor(p ^ a, q ^ b);
  }

  lemma XorAssociates(a: bv32, b: bv32, c: bv32)
    ensures Xor(a, Xor(b, c)) == Xor(Xor(a, b), c)
  {
    assert Xor(a, b ^ c) == Xor(a ^ b, c);
  }

  lemma XorZero(a: bv32)
    ensures Xor(a, 0) == a
  {
  }

  lemma {:induction false} Xor3Swap(a: bv32, b: bv32, c: bv32, m: bv32)
    ensures Xor3(Xor(a, m), Xor(b, m), Xor(c, m)) == Xor(Xor3(a, b, c), m)
  {
    XorSwap(a, m, b, m);
    XorSwap(Xor(a, b), Xor(m, m), c, m);
    XorCommutes(m, m);
    XorCancels(m, m);
  }
}

/** The bitwise CRC-32 of the compression sample (the CRC of section 8 of RFC 1952). */
module Crc32 {
  import opened LinearRegister
  import opened Words

  const INITIAL: bv32 := 0xFFFFFFFF
  const POLY: bv32 := 0xEDB88320

  // One turn of the inner loop, and what undoes it.
  function Bit(c: bv32): bv32 {
    if c & 1 == 1 then (c >> 1) ^ POLY else c >> 1
  }

  function BitInverse(z: bv32): bv32 {
    if z & 0x8000_0000 != 0 then ((z ^ POLY) << 1) | 1 else z << 1
  }

  // Facts of 32-bit words.
  lemma LowBit(x: bv32)
    ensures x & 1 == 0 || x & 1 == 1
  {
  }

  lemma ShiftSame(x: bv32, y: bv32)
    requires x & 1 == y & 1
    ensures (x ^ y) & 1 == 0 && (x ^ y) >> 1 == (x >> 1) ^ (y >> 1)
  {
  }

  lemma ShiftMixed(x: bv32, y: bv32)
    requires x & 1 == 1 && y & 1 == 0
    ensures (x ^ y) & 1 == 1 && (y ^ x) & 1 == 1
    ensures (x ^ y) >> 1 == (x >> 1) ^ (y >> 1) && (y ^ x) >> 1 == (y >> 1) ^ (x >> 1)
  {
  }

  lemma PolyCancels(a: bv32, b: bv32)
    ensures (a ^ POLY) ^ (b ^ POLY) == a ^ b
    ensures (a ^ b) ^ POLY == (a ^ POLY) ^ b && (a ^ b) ^ POLY == a ^ (b ^ POLY)
  {
  }

  lemma BitXor(x: bv32, y: bv32)
    ensures Bit(x ^ y) == Bit(x) ^ Bit(y)
  {
    LowBit(x);
    LowBit(y);
    PolyCancels(x >> 1, y >> 1);
    if x & 1 == y & 1 {
      ShiftSame(x, y);
    } else if x & 1 == 1 {
      ShiftMixed(x, y);
    } else {
      ShiftMixed(y, x);
    }
  }

  lemma OddBack(c: bv32)
    requires c & 1 == 1
    ensures ((c >> 1) ^ POLY) & 0x8000_0000 != 0 && (((((c >> 1) ^ POLY) ^ POLY) << 1) | 1) == c
  {
  }

  lemma EvenBack(c: bv32)
    requires c & 1 == 0
    ensures (c >> 1) & 0x8000_0000 == 0 && (c >> 1) << 1 == c
  {
  }

  lemma HighBack(z: bv32)
    requires z & 0x8000_0000 != 0
    ensures (((z ^ POLY) << 1) | 1) & 1 == 1 && ((((z ^ POLY) << 1) | 1) >> 1) ^ POLY == z
  {
  }

  lemma LowBack(z: bv32)
    requires z & 0x8000_0000 == 0
    ensures (z << 1) & 1 == 0 && (z << 1) >> 1 == z
  {
  }

  lemma InverseAfterBit(c: bv32)
    ensures BitInverse(Bit(c)) == c
  {
    LowBit(c);
    if c & 1 == 1 {
      var z := (c >> 1) ^ POLY;
      OddBack(c);
      assert Bit(c) == z;
      assert BitInverse(z) == ((z ^ POLY) << 1) | 1;
    } else {
      EvenBack(c);
      assert Bit(c) == c >> 1;
    }
  }

  lemma BitAfterInverse(z: bv32)
    ensures Bit(BitInverse(z)) == z
  {
    if z & 0x8000_0000 != 0 {
      var c := ((z ^ POLY) << 1) | 1;
      HighBack(z);
      assert BitInverse(z) == c;
      assert Bit(c) == (c >> 1) ^ POLY;
    } else {
      LowBack(z);
      assert BitInverse(z) == z << 1;
    }
  }

  // ---------------------------------------------------------------- the checksum

  function ByteXor3(a: bv8, b: bv8, c: bv8): bv8 { a ^ b ^ c }
  function Widen(b: bv8): bv32 { b as bv32 }
  function ShiftByte(y: bv32): bv32 { y << 8 }

  function Byte(c: bv32, b: bv8): bv32 {
    Feed(Bit, Xor, Widen, 8, c, b)
  }

  function Crc(data: seq<bv8>): bv32 {
    Xor(Fold(Byte, INITIAL, data), INITIAL)
  }

  method CalculateCRC32(data: seq<bv8>) returns (crc: bv32)
    ensures crc == Crc(data)
  {
    crc := INITIAL;
    for i := 0 to |data|
      invariant Fold(Byte, crc, data[i..]) == Fold(Byte, INITIAL, data)
    {
      assert data[i..][0] == data[i] && data[i..][1..] == data[i + 1..];
      crc := OneByte(crc, data[i]);
    }
    crc := crc ^ INITIAL;
  }

  method OneByte(start: bv32, b: bv8) returns (crc: bv32)
    ensures crc == Byte(start, b)
  {
    crc := start ^ Widen(b);
    for j := 0 to 8
      invariant Iterate(Bit, crc, 8 - j) == Byte(start, b)
    {
      if crc & 1 == 1 {
        crc := (crc >> 1) ^ POLY;
      } else {
        crc := crc >> 1;
      }
    }
  }

  // The step is linear, and a bijection undone by BitInverse.
  lemma BitFacts()
    ensures Linear(Bit, Xor) && Undoes(BitInverse, Bit) && Undoes(Bit, BitInverse)
  {
    forall x, y ensures Bit(Xor(x, y)) == Xor(Bit(x), Bit(y)) { BitXor(x, y); }
    forall x ensures BitInverse(Bit(x)) == x { InverseAfterBit(x); }
    forall x ensures Bit(BitInverse(x)) == x { BitAfterInverse(x); }
  }

  /** For each byte the state update is a bijection on the 32-bit states: the state can be recovered,
      and every state is reached. */
  lemma ByteBijective(c: bv32, b: bv8)
    ensures Xor(Iterate(BitInverse, Byte(c, b), 8), Widen(b)) == c
    ensures Byte(Xor(Iterate(BitInverse, c, 8), Widen(b)), b) == c
  {
    BitFacts();
    Undone(BitInverse, Bit, c, Widen(b));
    Redone(Bit, BitInverse, c, Widen(b));
  }

  lemma Undone(g: bv32 -> bv32, f: bv32 -> bv32, c: bv32, w: bv32)
    requires Undoes(g, f)
    ensures Xor(Iterate(g, Iterate(f, Xor(c, w), 8), 8), w) == c
  {
    IterateUndone(g, f, Xor(c, w), 8);
    XorCancels(c, w);
  }

  lemma Redone(f: bv32 -> bv32, g: bv32 -> bv32, c: bv32, w: bv32)
    requires Undoes(f, g)
    ensures Iterate(f, Xor(Xor(Iterate(g, c, 8), w), w), 8) == c
  {
    IterateUndone(f, g, c, 8);
    XorCancels(Iterate(g, c, 8), w);
  }

  lemma ByteInjective()
    ensures InjectiveStep(Byte)
  {
    forall c, d, b | Byte(c, b) == Byte(d, b) ensures c == d {
      ByteBijective(c, b);
      ByteBijective(d, b);
    }
  }

  // ---------------------------------------------------------------- bursts

  function Word32(w: seq<bv8>): bv32 {
    Word(Xor, 0, Widen, ShiftByte, w)
  }

  lemma WidenIsByte(b: bv8, y: bv32)
    ensures Widen(b) & 0xFF == Widen(b)
    ensures (Widen(b) ^ (y << 8)) & 0xFF == Widen(b)
    ensures (Widen(b) ^ (y << 8)) >> 8 == y & 0x00FF_FFFF
  {
  }

  lemma WidenInjective(a: bv8, b: bv8)
    ensures Widen(a) == Widen(b) <==> a == b
  {
  }

  lemma WordStep(b: bv8, y: bv32)
    ensures y & 0xFFFF_FF00 == 0 ==> (Widen(b) ^ (y << 8)) & 0xFFFF_0000 == 0
    ensures y & 0xFFFF_0000 == 0 ==> (Widen(b) ^ (y << 8)) & 0xFF00_0000 == 0
    ensures (Widen(b) ^ ((0 as bv32) << 8)) & 0xFFFF_FF00 == 0
  {
  }

  lemma {:induction false} WordFits(w: seq<bv8>)
    requires |w| <= 3
    ensures Word32(w) & 0xFF00_0000 == 0
    ensures |w| <= 2 ==> Word32(w) & 0xFFFF_0000 == 0
    ensures |w| <= 1 ==> Word32(w) & 0xFFFF_FF00 == 0
    decreases |w|
  {
    if w != [] {
      WordFits(w[1..]);
      WordStep(w[0], Word32(w[1..]));
      if |w| == 1 { assert Word32(w[1..]) == 0; }
    }
  }

  lemma Masked(x: bv32)
    requires x & 0xFF00_0000 == 0
    ensures x & 0x00FF_FFFF == x
  {
  }

  lemma {:induction false} WordInjective(v: seq<bv8>, w: seq<bv8>)
    requires |v| == |w| <= 4 && Word32(v) == Word32(w)
    ensures v == w
    decreases |v|
  {
    if v != [] {
      var x, y := Word32(v[1..]), Word32(w[1..]);
      WidenIsByte(v[0], x);
      WidenIsByte(w[0], y);
      WidenInjective(v[0], w[0]);
      WordFits(v[1..]);
      WordFits(w[1..]);
      Masked(x);
      Masked(y);
      WordInjective(v[1..], w[1..]);
    }
  }

  function Double(y: bv32): bv32 { y << 1 }

  lemma BitHalves(y: bv32)
    requires y & 0x8000_0000 == 0
    ensures Bit(Double(y)) == y
  {
    LowBack(y);
  }

  predicate HighClear(y: bv32) {
    y & 0x8000_0000 == 0
  }

  // Nothing is lost by doubling n times.
  predicate Clear(y: bv32, n: nat)
    decreases n
  {
    n == 0 || (HighClear(y) && Clear(Double(y), n - 1))
  }

  lemma RoomToDouble(f: bv32 -> bv32)
    requires forall y | HighClear(y) :: f(Double(y)) == y
    ensures UndoesWhile(Clear, f, Double)
  {
    forall y, n: nat | n > 0 && Clear(y, n) ensures f(Double(y)) == y && Clear(Double(y), n - 1) {
    }
  }

  lemma AllHalve()
    ensures UndoesWhile(Clear, Bit, Double)
  {
    forall y | HighClear(y) ensures Bit(Double(y)) == y { BitHalves(y); }
    RoomToDouble(Bit);
  }

  lemma FourDoubles(y: bv32)
    ensures Iterate(Double, y, 4) == y << 4
  {
  }

  lemma EightDoubles(y: bv32, z: bv32, n: nat)
    requires n == 4 && z == y << 4
    ensures Iterate(Double, y, n + n) == z << 4
  {
    FourDoubles(y);
    FourDoubles(z);
    TwoRuns(Double, y, z, z << 4, n, n);
  }

  lemma TwoRuns(f: bv32 -> bv32, x: bv32, y: bv32, z: bv32, m: nat, n: nat)
    requires Iterate(f, x, m) == y && Iterate(f, y, n) == z
    ensures Iterate(f, x, m + n) == z
  {
    IterateSplit(f, x, m, n);
  }

  lemma ShiftTwice(y: bv32)
    ensures (y << 4) << 4 == y << 8
  {
  }

  lemma DoublesToByte(y: bv32)
    ensures Iterate(Double, y, 8) == ShiftByte(y)
  {
    EightDoubles(y, y << 4, 4);
    ShiftTwice(y);
  }

  lemma FourClear(y: bv32)
    requires y & 0xF000_0000 == 0
    ensures y & 0x8000_0000 == 0 && (y << 1) & 0x8000_0000 == 0
    ensures ((y << 1) << 1) & 0x8000_0000 == 0 && (((y << 1) << 1) << 1) & 0x8000_0000 == 0
  {
  }

  lemma ClearFour(y: bv32)
    requires y & 0xF000_0000 == 0
    ensures Clear(y, 4)
  {
    FourClear(y);
  }

  lemma {:induction false} ClearSplit(y: bv32, m: nat, n: nat)
    requires Clear(y, m) && Clear(Iterate(Double, y, m), n)
    ensures Clear(y, m + n)
    decreases m
  {
    if m > 0 { ClearSplit(Double(y), m - 1, n); }
  }

  lemma NextFourClear(y: bv32)
    requires y & 0xFF00_0000 == 0
    ensures y & 0xF000_0000 == 0 && (y << 4) & 0xF000_0000 == 0
  {
  }

  lemma ClearEight(y: bv32)
    requires y & 0xFF00_0000 == 0
    ensures Clear(y, 8)
  {
    NextFourClear(y);
    ClearFour(y);
    ClearFour(y << 4);
    FourDoubles(y);
    ClearSplit(y, 4, 4);
  }

  // Eight turns shift a word out unchanged when its low byte is zero.
  lemma ShiftsOut(y: bv32)
    requires y & 0xFF00_0000 == 0
    ensures Iterate(Bit, ShiftByte(y), 8) == y
  {
    AllHalve();
    DoublesToByte(y);
    ClearEight(y);
    IterateBack(Clear, Bit, Double, y, 8);
  }

  lemma WordsShiftOut()
    ensures ShiftsWordsOut(Bit, Xor, 0, Widen, ShiftByte, 8)
  {
    forall v: seq<bv8> | |v| <= 3
      ensures Iterate(Bit, ShiftByte(Word(Xor, 0, Widen, ShiftByte, v)), 8) == Word(Xor, 0, Widen, ShiftByte, v)
    {
      WordFits(v);
      ShiftsOut(Word32(v));
    }
  }

  lemma XorFacts()
    ensures Unit(Xor, 0) && Associative(Xor)
  {
    forall x ensures Xor(x, 0) == x { XorZero(x); }
    forall x, y, z ensures Xor(x, Xor(y, z)) == Xor(Xor(x, y), z) { XorAssociates(x, y, z); }
  }

  lemma ShortWordIsXored(c: bv32, w: seq<bv8>)
    requires |w| <= 4
    ensures Fold(Byte, c, w) == Iterate(Bit, Xor(c, Word32(w)), Times(8, |w|))
  {
    BitFacts();
    XorFacts();
    WordsShiftOut();
    FoldIsShift(Byte, Bit, Xor, 0, Widen, ShiftByte, 8, c, w);
  }

  // Different short words lead to different registers.
  lemma WordsDiffer(c: bv32, v: seq<bv8>, w: seq<bv8>)
    requires |v| == |w| <= 4 && v != w
    ensures Fold(Byte, c, v) != Fold(Byte, c, w)
  {
    ShortWordIsXored(c, v);
    ShortWordIsXored(c, w);
    if Word32(v) == Word32(w) { WordInjective(v, w); }
    BitFacts();
    RegistersDiffer(BitInverse, Bit, c, Word32(v), Word32(w), Times(8, |v|));
  }

  lemma RegistersDiffer(g: bv32 -> bv32, f: bv32 -> bv32, c: bv32, x: bv32, y: bv32, n: nat)
    requires Undoes(g, f) && x != y
    ensures Iterate(f, Xor(c, x), n) != Iterate(f, Xor(c, y), n)
  {
    IterateUndone(g, f, Xor(c, x), n);
    IterateUndone(g, f, Xor(c, y), n);
    XorCommutes(c, x);
    XorCommutes(c, y);
    XorCancels(x, c);
    XorCancels(y, c);
  }

  /** Any two messages of the same length that differ, and differ only within four consecutive
      bytes, have different checksums: in particular any change of a single byte is detected. */
  lemma BurstDetected(head: seq<bv8>, v: seq<bv8>, w: seq<bv8>, tail: seq<bv8>)
    requires |v| == |w| <= 4 && v != w
    ensures Crc(head + v + tail) != Crc(head + w + tail)
  {
    WordsDiffer(Fold(Byte, INITIAL, head), v, w);
    ByteInjective();
    TailsDiffer(Byte, INITIAL, head, v, w, tail);
    XorCancels(Fold(Byte, INITIAL, head + v + tail), INITIAL);
    XorCancels(Fold(Byte, INITIAL, head + w + tail), INITIAL);
  }

  lemma TailsDiffer(step: (bv32, bv8) -> bv32, c: bv32, head: seq<bv8>, v: seq<bv8>, w: seq<bv8>, tail: seq<bv8>)
    requires InjectiveStep(step) && Fold(step, Fold(step, c, head), v) != Fold(step, Fold(step, c, head), w)
    ensures Fold(step, c, head + v + tail) != Fold(step, c, head + w + tail)
  {
    FoldAppend(step, c, head, v);
    FoldAppend(step, c, head, w);
    FoldAppend(step, c, head + v, tail);
    FoldAppend(step, c, head + w, tail);
    FoldInjective(step, Fold(step, c, head + v), Fold(step, c, head + w), tail);
  }

  // ---------------------------------------------------------------- affine

  lemma WidenXor3(a: bv8, b: bv8, c: bv8)
    ensures Widen(ByteXor3(a, b, c)) == Xor3(Widen(a), Widen(b), Widen(c))
  {
  }

  lemma {:induction false} FeedXor3(f: bv32 -> bv32, p: bv32, q: bv32, r: bv32, a: bv8, b: bv8, c: bv8)
    requires Linear(f, Xor)
    ensures Feed(f, Xor, Widen, 8, Xor3(p, q, r), ByteXor3(a, b, c))
         == Xor3(Feed(f, Xor, Widen, 8, p, a), Feed(f, Xor, Widen, 8, q, b), Feed(f, Xor, Widen, 8, r, c))
  {
    var (x, y, z) := (Xor(p, Widen(a)), Xor(q, Widen(b)), Xor(r, Widen(c)));
    WidenXor3(a, b, c);
    XorSwap(Xor(p, q), r, Xor(Widen(a), Widen(b)), Widen(c));
    XorSwap(p, q, Widen(a), Widen(b));
    IterateLinear(f, Xor, x, y, 8);
    IterateLinear(f, Xor, Xor(x, y), z, 8);
  }

  lemma ByteAffine()
    ensures Affine(Byte, Xor3, ByteXor3)
  {
    BitFacts();
    forall p, q, r, a, b, c
      ensures Byte(Xor3(p, q, r), ByteXor3(a, b, c)) == Xor3(Byte(p, a), Byte(q, b), Byte(r, c))
    {
      FeedXor3(Bit, p, q, r, a, b, c);
    }
  }

  /** The checksum is affine over xor. */
  lemma CrcAffine(x: seq<bv8>, y: seq<bv8>, z: seq<bv8>)
    requires |x| == |y| == |z|
    ensures Xor3(Crc(x), Crc(y), Crc(z)) == Crc(Map3(ByteXor3, x, y, z))
  {
    ByteAffine();
    FoldAffine(Byte, Xor3, ByteXor3, INITIAL, INITIAL, INITIAL, x, y, z);
    Xor3Swap(Fold(Byte, INITIAL, x), Fold(Byte, INITIAL, y), Fold(Byte, INITIAL, z), INITIAL);
    assert Xor3(INITIAL, INITIAL, INITIAL) == INITIAL;
  }
}
