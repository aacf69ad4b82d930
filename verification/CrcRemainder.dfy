/** Division of polynomials over the field of two elements, on their coefficients, highest first. */
module PolynomialDivision {

  /** The generator of section 8 of RFC 1952 is x^32 and these powers. */
  const EXPONENTS := {26, 23, 22, 16, 12, 11, 10, 8, 7, 5, 4, 2, 1, 0}

  // Its coefficients from x^31 down.
  function Low(): (g: seq<bool>)
    ensures |g| == 32
  {
    seq(32, i requires 0 <= i < 32 => (31 - i) in EXPONENTS)
  }

  function XorBits(a: seq<bool>, b: seq<bool>): (c: seq<bool>)
    requires |a| == |b|
    ensures |c| == |a| && forall i :: 0 <= i < |c| ==> c[i] == (a[i] != b[i])
  {
    seq(|a|, i requires 0 <= i < |a| => a[i] != b[i])
  }

  // g added to the first coefficients.
  function AddFront(bits: seq<bool>, g: seq<bool>): (r: seq<bool>)
    requires |g| <= |bits|
    ensures |r| == |bits|
    ensures forall i :: 0 <= i < |r| ==> r[i] == if i < |g| then bits[i] != g[i] else bits[i]
  {
    XorBits(bits[..|g|], g) + bits[|g|..]
  }

  /** Long division by the generator: what is left below x^32. */
  function Remainder(bits: seq<bool>): (r: seq<bool>)
    requires |bits| >= 32
    ensures |r| == 32
    decreases |bits|
  {
    if |bits| == 32 then bits
    else if bits[0] then Remainder(AddFront(bits[1..], Low()))
    else Remainder(bits[1..])
  }

  function AddAt(bits: seq<bool>, k: nat, g: seq<bool>): (r: seq<bool>)
    requires k + |g| <= |bits|
    ensures |r| == |bits|
  {
    bits[..k] + AddFront(bits[k..], g)
  }

  function Generator(): seq<bool> {
    [true] + Low()
  }

  lemma AddAtCommutes(bits: seq<bool>, k: nat, g: seq<bool>, h: seq<bool>)
    requires k + |g| <= |bits| && |h| <= |bits|
    ensures AddFront(AddAt(bits, k, g), h) == AddAt(AddFront(bits, h), k, g)
  {
    var (l, r) := (AddFront(AddAt(bits, k, g), h), AddAt(AddFront(bits, h), k, g));
    forall i | 0 <= i < |bits| ensures l[i] == r[i] {
      AddAtIndex(bits, k, g, i);
      AddAtIndex(AddFront(bits, h), k, g, i);
    }
  }

  lemma AddAtIndex(bits: seq<bool>, k: nat, g: seq<bool>, i: nat)
    requires k + |g| <= |bits| && i < |bits|
    ensures AddAt(bits, k, g)[i] == if k <= i < k + |g| then bits[i] != g[i - k] else bits[i]
  {
  }

  /** Adding a multiple x^j of the generator leaves the remainder as it is: the remainder depends on the
      polynomial only up to multiples of the generator. */
  lemma {:induction false} RemainderOfMultiple(bits: seq<bool>, k: nat)
    requires k + 33 <= |bits|
    ensures Remainder(AddAt(bits, k, Generator())) == Remainder(bits)
    decreases |bits|
  {
    var sum := AddAt(bits, k, Generator());
    if k == 0 {
      LeadingMultiple(bits);
    } else {
      assert sum[0] == bits[0] && sum[1..] == AddAt(bits[1..], k - 1, Generator());
      if bits[0] {
        AddAtCommutes(bits[1..], k - 1, Generator(), Low());
        RemainderOfMultiple(AddFront(bits[1..], Low()), k - 1);
      } else {
        RemainderOfMultiple(bits[1..], k - 1);
      }
    }
  }

  lemma AddedTwice(bits: seq<bool>, g: seq<bool>)
    requires |g| <= |bits|
    ensures AddFront(AddFront(bits, g), g) == bits
  {
  }

  lemma GeneratorInFront(bits: seq<bool>)
    requires |bits| >= 33
    ensures var sum := AddAt(bits, 0, Generator());
            sum[0] != bits[0] && sum[1..] == AddFront(bits[1..], Low())
  {
    var (g, low) := (Generator(), Low());
    AddAtStart(bits, g);
    AddedHead(bits, true, low);
  }

  lemma AddAtStart(bits: seq<bool>, g: seq<bool>)
    requires |g| <= |bits|
    ensures AddAt(bits, 0, g) == AddFront(bits, g)
  {
    assert bits[0..] == bits && bits[..0] == [];
  }

  lemma AddedHead(bits: seq<bool>, a: bool, g: seq<bool>)
    requires |g| + 1 <= |bits|
    ensures var sum := AddFront(bits, [a] + g);
            sum[0] == (bits[0] != a) && sum[1..] == AddFront(bits[1..], g)
  {
  }

  lemma LeadingMultiple(bits: seq<bool>)
    requires |bits| >= 33
    ensures Remainder(AddAt(bits, 0, Generator())) == Remainder(bits)
  {
    GeneratorInFront(bits);
    AddedTwice(bits[1..], Low());
    OneDivision(bits);
    OneDivision(AddAt(bits, 0, Generator()));
  }

  lemma OneDivision(bits: seq<bool>)
    requires |bits| >= 33
    ensures Remainder(bits) == if bits[0] then Remainder(AddFront(bits[1..], Low())) else Remainder(bits[1..])
  {
  }

  function Zeros(n: nat): (z: seq<bool>)
    ensures |z| == n && forall i :: 0 <= i < n ==> !z[i]
  {
    seq(n, i => false)
  }

  function Ones(n: nat): (o: seq<bool>)
    ensures |o| == n && forall i :: 0 <= i < n ==> o[i]
  {
    seq(n, i => true)
  }
}

/** A shift register over any word type divides: what that needs to know of the words. */
module BitRegister {
  import opened PolynomialDivision
  import opened LinearRegister

  // The bits of a word, the lowest, which stands for the highest power, first.
  function Bits<T>(low: T -> bool, half: T -> T, c: T, n: nat): (s: seq<bool>)
    ensures |s| == n
  {
    if n == 0 then [] else [low(c)] + Bits(low, half, half(c), n - 1)
  }

  lemma {:induction false} BitsSplit<T>(low: T -> bool, half: T -> T, c: T, m: nat, n: nat)
    ensures Bits(low, half, c, m + n) == Bits(low, half, c, m) + Bits(low, half, Iterate(half, c, m), n)
    decreases m
  {
    if m > 0 { BitsSplit(low, half, half(c), m - 1, n); }
  }

  // Bit by bit.
  ghost predicate Bitwise<T(!new)>(low: T -> bool, half: T -> T, xor: (T, T) -> T) {
    forall c, d {:trigger xor(c, d)} :: low(xor(c, d)) == (low(c) != low(d)) && half(xor(c, d)) == xor(half(c), half(d))
  }

  lemma {:induction false} BitsOfXor<T(!new)>(low: T -> bool, half: T -> T, xor: (T, T) -> T, c: T, d: T, n: nat)
    requires Bitwise(low, half, xor)
    ensures Bits(low, half, xor(c, d), n) == XorBits(Bits(low, half, c, n), Bits(low, half, d, n))
    decreases n
  {
    if n > 0 { BitsOfXor(low, half, xor, half(c), half(d), n - 1); }
  }

  // 32 bits are all there are.
  ghost predicate Wide<T(!new)>(low: T -> bool, half: T -> T) {
    forall c :: !low(Iterate(half, c, 32))
  }

  lemma BitsOfHalf<T(!new)>(low: T -> bool, half: T -> T, c: T)
    requires Wide(low, half)
    ensures Bits(low, half, half(c), 32) == Bits(low, half, c, 32)[1..] + [false]
  {
    OnePastTheEnd(low, half, c, 31);
  }

  lemma OnePastTheEnd<T(!new)>(low: T -> bool, half: T -> T, c: T, n: nat)
    requires !low(Iterate(half, c, n + 1))
    ensures Bits(low, half, half(c), n + 1) == Bits(low, half, c, n + 1)[1..] + [false]
  {
    var last := Iterate(half, half(c), n);
    assert last == Iterate(half, c, n + 1);
    BitsSplit(low, half, half(c), n, 1);
    assert Bits(low, half, last, 1) == [low(last)] + Bits(low, half, half(last), 0);
  }

  lemma FourBits<T>(low: T -> bool, half: T -> T, c: T, d: T, e: T, f: T)
    requires half(c) == d && half(d) == e && half(e) == f
    ensures Bits(low, half, c, 4) == [low(c), low(d), low(e), low(f)]
  {
    assert Bits(low, half, f, 1) == [low(f)] + Bits(low, half, half(f), 0);
    assert Bits(low, half, e, 2) == [low(e)] + Bits(low, half, f, 1);
    assert Bits(low, half, d, 3) == [low(d)] + Bits(low, half, e, 2);
  }

  // One step of the register, and the bit of the message before it.
  ghost predicate Steps<T(!new)>(step: T -> T, low: T -> bool, half: T -> T, xor: (T, T) -> T, poly: T) {
    forall c :: step(c) == if low(c) then xor(half(c), poly) else half(c)
  }

  ghost predicate Flips<T(!new)>(flip: T -> T, low: T -> bool, half: T -> T) {
    forall c :: low(flip(c)) == !low(c) && half(flip(c)) == half(c)
  }

  function Shifted<T>(step: T -> T, flip: T -> T, c: T, bits: seq<bool>): T
    decreases |bits|
  {
    if bits == [] then c else Shifted(step, flip, step(if bits[0] then flip(c) else c), bits[1..])
  }

  lemma {:induction false} ShiftedAppend<T>(step: T -> T, flip: T -> T, c: T, a: seq<bool>, b: seq<bool>)
    ensures Shifted(step, flip, c, a + b) == Shifted(step, flip, Shifted(step, flip, c, a), b)
    decreases |a|
  {
    if a == [] {
      assert a + b == b;
    } else {
      assert (a + b)[0] == a[0] && (a + b)[1..] == a[1..] + b;
      ShiftedAppend(step, flip, step(if a[0] then flip(c) else c), a[1..], b);
    }
  }

  lemma BitsOfStep<T(!new)>(step: T -> T, low: T -> bool, half: T -> T, xor: (T, T) -> T, poly: T, c: T)
    requires Steps(step, low, half, xor, poly) && Bitwise(low, half, xor) && Wide(low, half)
    requires Bits(low, half, poly, 32) == Low()
    ensures var shifted := Bits(low, half, c, 32)[1..] + [false];
            Bits(low, half, step(c), 32) == if low(c) then XorBits(shifted, Low()) else shifted
  {
    BitsOfHalf(low, half, c);
    BitsOfXor(low, half, xor, half(c), poly, 32);
  }

  lemma BitsOfFlip<T(!new)>(flip: T -> T, low: T -> bool, half: T -> T, c: T)
    requires Flips(flip, low, half)
    ensures var b := Bits(low, half, c, 32); Bits(low, half, flip(c), 32) == [!b[0]] + b[1..] && b[0] == low(c)
  {
    BitsOfFirst(low, half, c, 31);
    BitsOfFirst(low, half, flip(c), 31);
  }

  lemma BitsOfFirst<T>(low: T -> bool, half: T -> T, c: T, n: nat)
    ensures Bits(low, half, c, n + 1) == [low(c)] + Bits(low, half, half(c), n)
  {
  }

  // One division: the head decides, the register moves on.
  lemma DivideOnce(m: seq<bool>, b: bool, r: seq<bool>, next: seq<bool>)
    requires |r| == 32 && |next| == 32
    requires next == if b != r[0] then XorBits(r[1..] + [false], Low()) else r[1..] + [false]
    ensures Remainder(AddFront([b] + m + Zeros(32), r)) == Remainder(AddFront(m + Zeros(32), next))
  {
    var (all, rest) := (AddFront([b] + m + Zeros(32), r), m + Zeros(32));
    assert all[0] == (b != r[0]);
    assert all[1..] == AddFront(rest, r[1..] + [false]);
    if b != r[0] { AddedInTurn(rest, r[1..] + [false], Low()); }
  }

  lemma AddedInTurn(bits: seq<bool>, g: seq<bool>, h: seq<bool>)
    requires |g| == |h| <= |bits|
    ensures AddFront(AddFront(bits, g), h) == AddFront(bits, XorBits(g, h))
  {
  }

  lemma StepDivides<T(!new)>(step: T -> T, flip: T -> T, low: T -> bool, half: T -> T, xor: (T, T) -> T, poly: T, c: T, b: bool)
    requires Steps(step, low, half, xor, poly) && Flips(flip, low, half) && Bitwise(low, half, xor) && Wide(low, half)
    requires Bits(low, half, poly, 32) == Low()
    ensures var r := Bits(low, half, c, 32);
            Bits(low, half, step(if b then flip(c) else c), 32)
              == if b != r[0] then XorBits(r[1..] + [false], Low()) else r[1..] + [false]
  {
    BitsOfStep(step, low, half, xor, poly, if b then flip(c) else c);
    BitsOfFlip(flip, low, half, c);
  }

  /** Shifting a message through the register divides it: the register is the remainder of the message
      followed by 32 zeros, to whose first coefficients the register's first contents were added. */
  lemma {:induction false} RegisterIsRemainder<T(!new)>(step: T -> T, flip: T -> T, low: T -> bool, half: T -> T, xor: (T, T) -> T,
                                                        poly: T, c: T, m: seq<bool>)
    requires Steps(step, low, half, xor, poly) && Flips(flip, low, half) && Bitwise(low, half, xor) && Wide(low, half)
    requires Bits(low, half, poly, 32) == Low()
    ensures Bits(low, half, Shifted(step, flip, c, m), 32) == Remainder(AddFront(m + Zeros(32), Bits(low, half, c, 32)))
    decreases |m|
  {
    var r := Bits(low, half, c, 32);
    if m == [] {
      assert AddFront(m + Zeros(32), r) == r;
    } else {
      var next := step(if m[0] then flip(c) else c);
      RegisterIsRemainder(step, flip, low, half, xor, poly, next, m[1..]);
      StepDivides(step, flip, low, half, xor, poly, c, m[0]);
      DivideOnce(m[1..], m[0], r, Bits(low, half, next, 32));
      assert m == [m[0]] + m[1..];
    }
  }

  // A byte fed at once is its bits shifted in one by one.
  ghost predicate Peels<T(!new), B(!new)>(step: T -> T, flip: T -> T, xor: (T, T) -> T, widen: B -> T, lowOf: B -> bool, halfOf: B -> B) {
    forall c, b {:trigger step(xor(c, widen(b)))} ::
      step(xor(c, widen(b))) == xor(step(if lowOf(b) then flip(c) else c), widen(halfOf(b)))
  }

  lemma {:induction false} FeedIsShifted<T(!new), B(!new)>(step: T -> T, flip: T -> T, xor: (T, T) -> T, widen: B -> T,
                                                           lowOf: B -> bool, halfOf: B -> B, c: T, b: B, n: nat)
    requires Peels(step, flip, xor, widen, lowOf, halfOf)
    ensures Iterate(step, xor(c, widen(b)), n)
         == xor(Shifted(step, flip, c, Bits(lowOf, halfOf, b, n)), widen(Iterate(halfOf, b, n)))
    decreases n
  {
    if n > 0 {
      var next := step(if lowOf(b) then flip(c) else c);
      assert step(xor(c, widen(b))) == xor(next, widen(halfOf(b)));
      FeedIsShifted(step, flip, xor, widen, lowOf, halfOf, next, halfOf(b), n - 1);
      var bits := Bits(lowOf, halfOf, b, n);
      assert bits[0] == lowOf(b) && bits[1..] == Bits(lowOf, halfOf, halfOf(b), n - 1);
    }
  }
}

/** The checksum of section 8 of RFC 1952 as a remainder. */
module CrcRemainder {
  import opened PolynomialDivision
  import opened BitRegister
  import opened LinearRegister
  import opened Words
  import opened Crc32

  function IsOdd(c: bv32): bool { c & 1 == 1 }
  function Half(c: bv32): bv32 { c >> 1 }
  function Flip(c: bv32): bv32 { c ^ 1 }
  function ByteIsOdd(b: bv8): bool { b & 1 == 1 }
  function ByteHalf(b: bv8): bv8 { b >> 1 }

  // The 32 bits of a register, the lowest first.
  function RegisterBits(c: bv32): (s: seq<bool>)
    ensures |s| == 32
  {
    Bits(IsOdd, Half, c, 32)
  }

  // The bits in the order in which they are sent: of every byte the lowest first.
  function MessageBits(data: seq<bv8>): seq<bool> {
    if data == [] then [] else Bits(ByteIsOdd, ByteHalf, data[0], 8) + MessageBits(data[1..])
  }

  // ---------------------------------------------------------------- 32-bit words

  lemma OddXor(c: bv32, d: bv32)
    ensures IsOdd(c ^ d) == (IsOdd(c) != IsOdd(d))
  {
    LowBit(c);
    LowBit(d);
    LowBit(c ^ d);
  }

  lemma HalfXor(c: bv32, d: bv32)
    ensures (c ^ d) >> 1 == (c >> 1) ^ (d >> 1)
  {
  }

  lemma WordsAreBitwise()
    ensures Bitwise(IsOdd, Half, Xor)
  {
    forall c, d ensures IsOdd(Xor(c, d)) == (IsOdd(c) != IsOdd(d)) && Half(Xor(c, d)) == Xor(Half(c), Half(d)) {
      OddXor(c, d);
      HalfXor(c, d);
    }
  }

  lemma OddFlips(c: bv32)
    ensures IsOdd(c ^ 1) == !IsOdd(c) && (c ^ 1) >> 1 == c >> 1
  {
    LowBit(c);
  }

  lemma FlipFlips()
    ensures Flips(Flip, IsOdd, Half)
  {
    forall c ensures IsOdd(Flip(c)) == !IsOdd(c) && Half(Flip(c)) == Half(c) { OddFlips(c); }
  }

  lemma BitSteps()
    ensures Steps(Bit, IsOdd, Half, Xor, POLY)
  {
  }

  lemma Joined(f: bv32 -> bv32, c: bv32, x: bv32, y: bv32, m: nat, n: nat)
    requires Iterate(f, c, m) == x && Iterate(f, x, n) == y
    ensures Iterate(f, c, m + n) == y
  {
    IterateSplit(f, c, m, n);
  }

  lemma FourHalves(c: bv32)
    ensures Iterate(Half, c, 4) == c >> 4
  {
  }

  lemma ShiftFours(c: bv32)
    ensures (c >> 4) >> 4 == c >> 8
  {
  }

  lemma ShiftEights(c: bv32)
    ensures (c >> 8) >> 8 == c >> 16
  {
  }

  lemma ShiftSixteens(c: bv32)
    ensures (c >> 16) >> 16 == 0
  {
  }

  // What m steps of f amount to.
  ghost predicate Shifts(f: bv32 -> bv32, far: bv32 -> bv32, m: nat) {
    forall c :: Iterate(f, c, m) == far(c)
  }

  lemma ShiftsTwice(f: bv32 -> bv32, far: bv32 -> bv32, twice: bv32 -> bv32, m: nat, n: nat)
    requires Shifts(f, far, m) && n == m + m && forall c :: far(far(c)) == twice(c)
    ensures Shifts(f, twice, n)
  {
    forall c ensures Iterate(f, c, n) == twice(c) {
      assert Iterate(f, c, m) == far(c) && Iterate(f, far(c), m) == far(far(c));
      Joined(f, c, far(c), far(far(c)), m, m);
    }
  }

  function By4(c: bv32): bv32 { c >> 4 }
  function By8(c: bv32): bv32 { c >> 8 }
  function By16(c: bv32): bv32 { c >> 16 }
  function Nothing(c: bv32): bv32 { 0 }

  lemma HalvesShift()
    ensures Shifts(Half, By16, 16)
  {
    forall c ensures Iterate(Half, c, 4) == By4(c) { FourHalves(c); }
    forall c ensures By4(By4(c)) == By8(c) { ShiftFours(c); }
    forall c ensures By8(By8(c)) == By16(c) { ShiftEights(c); }
    ShiftsTwice(Half, By4, By8, 4, 8);
    ShiftsTwice(Half, By8, By16, 8, 16);
  }

  lemma AllShiftedOut()
    ensures Shifts(Half, Nothing, 32)
  {
    forall c ensures By16(By16(c)) == Nothing(c) { ShiftSixteens(c); }
    HalvesShift();
    ShiftsTwice(Half, By16, Nothing, 16, 32);
  }

  lemma WordsAreWide()
    ensures Wide(IsOdd, Half)
  {
    AllShiftedOut();
    forall c ensures !IsOdd(Iterate(Half, c, 32)) {
      assert Iterate(Half, c, 32) == Nothing(c);
      assert !IsOdd(0);
    }
  }

  // ---------------------------------------------------------------- the constants

  lemma DigitFirst(c: bv32, rest: bv32, s: seq<bool>, n: nat)
    requires rest == c >> 4 && s == Bits(IsOdd, Half, c, 4)
    ensures Bits(IsOdd, Half, c, 4 + n) == s + Bits(IsOdd, Half, rest, n)
  {
    BitsSplit(IsOdd, Half, c, 4, n);
    FourHalves(c);
  }

  // The lowest hexadecimal digit, lowest bit first.
  lemma LowDigit(c: bv32, s: seq<bool>)
    requires |s| == 4
    requires (c & 1 == 1) == s[0] && (c & 2 == 2) == s[1] && (c & 4 == 4) == s[2] && (c & 8 == 8) == s[3]
    ensures Bits(IsOdd, Half, c, 4) == s
  {
    DigitBits(c);
    FourBits(IsOdd, Half, c, c >> 1, (c >> 1) >> 1, ((c >> 1) >> 1) >> 1);
  }

  lemma DigitBits(c: bv32)
    ensures (c & 2 == 2) == ((c >> 1) & 1 == 1)
    ensures (c & 4 == 4) == (((c >> 1) >> 1) & 1 == 1)
    ensures (c & 8 == 8) == ((((c >> 1) >> 1) >> 1) & 1 == 1)
  {
  }

  lemma PolyLowHalf()
    ensures Bits(IsOdd, Half, 0xEDB88320, 16)
         == [false, false, false, false] + [false, true, false, false]
          + [true, true, false, false] + [false, false, false, true]
  {
    LowDigit(0xEDB88320, [false, false, false, false]);
    DigitFirst(0xEDB88320, 0xEDB8832, [false, false, false, false], 12);
    LowDigit(0xEDB8832, [false, true, false, false]);
    DigitFirst(0xEDB8832, 0xEDB883, [false, true, false, false], 8);
    LowDigit(0xEDB883, [true, true, false, false]);
    DigitFirst(0xEDB883, 0xEDB88, [true, true, false, false], 4);
    LowDigit(0xEDB88, [false, false, false, true]);
    DigitFirst(0xEDB88, 0xEDB8, [false, false, false, true], 0);
  }

  lemma PolyHighHalf()
    ensures Bits(IsOdd, Half, 0xEDB8, 16)
         == [false, false, false, true] + [true, true, false, true]
          + [true, false, true, true] + [false, true, true, true]
  {
    LowDigit(0xEDB8, [false, false, false, true]);
    DigitFirst(0xEDB8, 0xEDB, [false, false, false, true], 12);
    LowDigit(0xEDB, [true, true, false, true]);
    DigitFirst(0xEDB, 0xED, [true, true, false, true], 8);
    LowDigit(0xED, [true, false, true, true]);
    DigitFirst(0xED, 0xE, [true, false, true, true], 4);
    LowDigit(0xE, [false, true, true, true]);
    DigitFirst(0xE, 0x0, [false, true, true, true], 0);
  }

  // The coefficients of the generator, written out.
  lemma LowWritten()
    ensures Low()[..16] == [false, false, false, false] + [false, true, false, false]
          + [true, true, false, false] + [false, false, false, true]
    ensures Low()[16..] == [false, false, false, true] + [true, true, false, true]
          + [true, false, true, true] + [false, true, true, true]
  {
  }

  lemma PolySplits()
    ensures RegisterBits(POLY) == Bits(IsOdd, Half, POLY, 16) + Bits(IsOdd, Half, 0xEDB8, 16)
  {
    BitsSplit(IsOdd, Half, POLY, 16, 16);
    HalvesShift();
    assert Iterate(Half, POLY, 16) == By16(POLY) == 0xEDB8;
  }

  lemma PolyIsGenerator()
    ensures RegisterBits(POLY) == Low()
  {
    PolySplits();
    PolyLowHalf();
    PolyHighHalf();
    LowWritten();
    assert Low() == Low()[..16] + Low()[16..];
  }

  lemma OnesLowHalf()
    ensures Bits(IsOdd, Half, 0xFFFFFFFF, 16) == Ones(4) + Ones(4) + Ones(4) + Ones(4)
  {
    LowDigit(0xFFFFFFFF, Ones(4));
    DigitFirst(0xFFFFFFFF, 0xFFFFFFF, Ones(4), 12);
    LowDigit(0xFFFFFFF, Ones(4));
    DigitFirst(0xFFFFFFF, 0xFFFFFF, Ones(4), 8);
    LowDigit(0xFFFFFF, Ones(4));
    DigitFirst(0xFFFFFF, 0xFFFFF, Ones(4), 4);
    LowDigit(0xFFFFF, Ones(4));
    DigitFirst(0xFFFFF, 0xFFFF, Ones(4), 0);
  }

  lemma OnesHighHalf()
    ensures Bits(IsOdd, Half, 0xFFFF, 16) == Ones(4) + Ones(4) + Ones(4) + Ones(4)
  {
    LowDigit(0xFFFF, Ones(4));
    DigitFirst(0xFFFF, 0xFFF, Ones(4), 12);
    LowDigit(0xFFF, Ones(4));
    DigitFirst(0xFFF, 0xFF, Ones(4), 8);
    LowDigit(0xFF, Ones(4));
    DigitFirst(0xFF, 0xF, Ones(4), 4);
    LowDigit(0xF, Ones(4));
    DigitFirst(0xF, 0x0, Ones(4), 0);
  }

  lemma InitialSplits()
    ensures RegisterBits(INITIAL) == Bits(IsOdd, Half, INITIAL, 16) + Bits(IsOdd, Half, 0xFFFF, 16)
  {
    BitsSplit(IsOdd, Half, INITIAL, 16, 16);
    HalvesShift();
    assert Iterate(Half, INITIAL, 16) == By16(INITIAL) == 0xFFFF;
  }

  lemma InitialIsOnes()
    ensures RegisterBits(INITIAL) == Ones(32)
  {
    InitialSplits();
    OnesLowHalf();
    OnesHighHalf();
  }

  // ---------------------------------------------------------------- bytes

  lemma WidenSplits(b: bv8)
    ensures (b as bv32) & 1 == if b & 1 == 1 then 1 else 0
    ensures (b as bv32) >> 1 == (b >> 1) as bv32
    ensures ((b >> 1) as bv32) & 0x8000_0000 == 0
  {
  }

  lemma Rejoined(d: bv32)
    ensures d & 1 == 1 ==> d == 1 ^ ((d >> 1) << 1)
    ensures d & 1 == 0 ==> d == (d >> 1) << 1
  {
  }

  lemma MovedIn(c: bv32, d: bv32)
    ensures c ^ (1 ^ d) == (c ^ 1) ^ d
  {
  }

  // The lowest bit of the byte goes in by itself, the others stay to be added later.
  lemma BytePeels(c: bv32, b: bv8)
    ensures Bit(Xor(c, Widen(b))) == Xor(Bit(if ByteIsOdd(b) then Flip(c) else c), Widen(ByteHalf(b)))
  {
    var (rest, first) := (Widen(ByteHalf(b)), if ByteIsOdd(b) then Flip(c) else c);
    PeeledSum(c, b);
    WidenSplits(b);
    BitHalves(rest);
    LinearStep(Bit, first, Double(rest));
  }

  lemma PeeledSum(c: bv32, b: bv8)
    ensures Xor(c, Widen(b)) == Xor(if ByteIsOdd(b) then Flip(c) else c, Double(Widen(ByteHalf(b))))
  {
    var d := b as bv32;
    WidenSplits(b);
    Rejoined(d);
    MovedIn(c, (d >> 1) << 1);
  }

  lemma LinearStep(f: bv32 -> bv32, x: bv32, y: bv32)
    requires f == Bit
    ensures f(Xor(x, y)) == Xor(f(x), f(y))
  {
    BitFacts();
  }

  lemma BytesPeel()
    ensures Peels(Bit, Flip, Xor, Widen, ByteIsOdd, ByteHalf)
  {
    forall c, b ensures Bit(Xor(c, Widen(b))) == Xor(Bit(if ByteIsOdd(b) then Flip(c) else c), Widen(ByteHalf(b))) {
      BytePeels(c, b);
    }
  }

  lemma ByteShiftedOut(b: bv8)
    ensures Iterate(ByteHalf, b, 8) == 0
  {
  }

  lemma ByteIsShifted(c: bv32, b: bv8)
    ensures Byte(c, b) == Shifted(Bit, Flip, c, Bits(ByteIsOdd, ByteHalf, b, 8))
  {
    BytesPeel();
    FeedIsShifted(Bit, Flip, Xor, Widen, ByteIsOdd, ByteHalf, c, b, 8);
    ByteShiftedOut(b);
    XorZero(Shifted(Bit, Flip, c, Bits(ByteIsOdd, ByteHalf, b, 8)));
  }

  lemma {:induction false} DataIsShifted(c: bv32, data: seq<bv8>)
    ensures Fold(Byte, c, data) == Shifted(Bit, Flip, c, MessageBits(data))
    decreases |data|
  {
    if data != [] {
      ByteIsShifted(c, data[0]);
      DataIsShifted(Byte(c, data[0]), data[1..]);
      ShiftedAppend(Bit, Flip, c, Bits(ByteIsOdd, ByteHalf, data[0], 8), MessageBits(data[1..]));
    }
  }

  // ---------------------------------------------------------------- the checksum

  function Complement(bits: seq<bool>): seq<bool> {
    XorBits(bits, Ones(|bits|))
  }

  /** The checksum, its lowest bit standing for the highest power: the complement of the remainder, by
      the generator with the exponents listed, of the message and 32 zeros behind it, the first 32
      coefficients complemented. */
  lemma CrcIsRemainder(data: seq<bv8>)
    ensures RegisterBits(Crc(data)) == Complement(Remainder(AddFront(MessageBits(data) + Zeros(32), Ones(32))))
  {
    DataIsShifted(INITIAL, data);
    RegisterDivides(INITIAL, MessageBits(data));
    InitialIsOnes();
    WordsAreBitwise();
    BitsOfXor(IsOdd, Half, Xor, Fold(Byte, INITIAL, data), INITIAL, 32);
  }

  lemma RegisterDivides(c: bv32, m: seq<bool>)
    ensures RegisterBits(Shifted(Bit, Flip, c, m)) == Remainder(AddFront(m + Zeros(32), RegisterBits(c)))
  {
    BitSteps();
    FlipFlips();
    WordsAreBitwise();
    WordsAreWide();
    PolyIsGenerator();
    RegisterIsRemainder(Bit, Flip, IsOdd, Half, Xor, POLY, c, m);
  }
}
