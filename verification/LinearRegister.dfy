/** Shift registers over any word type: what follows from the linearity or the invertibility of one
    step alone. */
module LinearRegister {

  function Iterate<T>(f: T -> T, c: T, n: nat): T
    decreases n
  {
    if n == 0 then c else Iterate(f, f(c), n - 1)
  }

  function Fold<T, B>(step: (T, B) -> T, c: T, data: seq<B>): T
    decreases |data|
  {
    if data == [] then c else Fold(step, step(c, data[0]), data[1..])
  }

  ghost predicate Linear<T(!new)>(f: T -> T, xor: (T, T) -> T) {
    forall x, y {:trigger f(xor(x, y))} :: f(xor(x, y)) == xor(f(x), f(y))
  }

  ghost predicate Undoes<T(!new)>(g: T -> T, f: T -> T) {
    forall x :: g(f(x)) == x
  }

  lemma {:induction false} IterateLinear<T(!new)>(f: T -> T, xor: (T, T) -> T, x: T, y: T, n: nat)
    requires Linear(f, xor)
    ensures Iterate(f, xor(x, y), n) == xor(Iterate(f, x, n), Iterate(f, y, n))
    decreases n
  {
    if n > 0 { IterateLinear(f, xor, f(x), f(y), n - 1); }
  }

  lemma {:induction false} IterateSplit<T>(f: T -> T, c: T, m: nat, n: nat)
    ensures Iterate(f, Iterate(f, c, m), n) == Iterate(f, c, m + n)
    decreases m
  {
    if m > 0 { IterateSplit(f, f(c), m - 1, n); }
  }

  lemma {:induction false} IterateUndone<T(!new)>(g: T -> T, f: T -> T, c: T, n: nat)
    requires Undoes(g, f)
    ensures Iterate(g, Iterate(f, c, n), n) == c
    decreases n
  {
    if n > 0 {
      IterateUndone(g, f, f(c), n - 1);
      IterateSplit(g, Iterate(f, f(c), n - 1), n - 1, 1);
      assert g(f(c)) == c;
      assert Iterate(g, f(c), 1) == Iterate(g, c, 0);
    }
  }

  // f undoes g as long as there is room for another step.
  ghost predicate UndoesWhile<T(!new)>(room: (T, nat) -> bool, f: T -> T, g: T -> T) {
    forall y, n: nat | n > 0 && room(y, n) :: f(g(y)) == y && room(g(y), n - 1)
  }

  lemma {:induction false} IterateBack<T(!new)>(room: (T, nat) -> bool, f: T -> T, g: T -> T, y: T, n: nat)
    requires UndoesWhile(room, f, g) && room(y, n)
    ensures Iterate(f, Iterate(g, y, n), n) == y
    decreases n
  {
    if n > 0 {
      IterateBack(room, f, g, g(y), n - 1);
      IterateSplit(f, Iterate(g, g(y), n - 1), n - 1, 1);
      assert Iterate(f, g(y), 1) == Iterate(f, y, 0);
    }
  }

  lemma {:induction false} FoldAppend<T, B>(step: (T, B) -> T, c: T, a: seq<B>, b: seq<B>)
    ensures Fold(step, c, a + b) == Fold(step, Fold(step, c, a), b)
    decreases |a|
  {
    if a == [] {
      assert a + b == b;
    } else {
      assert (a + b)[0] == a[0] && (a + b)[1..] == a[1..] + b;
      FoldAppend(step, step(c, a[0]), a[1..], b);
    }
  }

  ghost predicate InjectiveStep<T(!new), B(!new)>(step: (T, B) -> T) {
    forall c, d, b {:trigger step(c, b), step(d, b)} :: step(c, b) == step(d, b) ==> c == d
  }

  lemma {:induction false} FoldInjective<T(!new), B(!new)>(step: (T, B) -> T, c: T, d: T, data: seq<B>)
    requires InjectiveStep(step)
    ensures Fold(step, c, data) == Fold(step, d, data) <==> c == d
    decreases |data|
  {
    if data != [] { FoldInjective(step, step(c, data[0]), step(d, data[0]), data[1..]); }
  }

  function Map3<B>(f: (B, B, B) -> B, x: seq<B>, y: seq<B>, z: seq<B>): seq<B>
    requires |x| == |y| == |z|
  {
    if x == [] then [] else [f(x[0], y[0], z[0])] + Map3(f, x[1..], y[1..], z[1..])
  }

  ghost predicate Affine<T(!new), B(!new)>(step: (T, B) -> T, sum: (T, T, T) -> T, add: (B, B, B) -> B) {
    forall p, q, r, a, b, c {:trigger step(sum(p, q, r), add(a, b, c))} ::
      step(sum(p, q, r), add(a, b, c)) == sum(step(p, a), step(q, b), step(r, c))
  }

  lemma {:induction false} FoldAffine<T(!new), B(!new)>(step: (T, B) -> T, sum: (T, T, T) -> T, add: (B, B, B) -> B,
                                                        p: T, q: T, r: T, x: seq<B>, y: seq<B>, z: seq<B>)
    requires |x| == |y| == |z| && Affine(step, sum, add)
    ensures Fold(step, sum(p, q, r), Map3(add, x, y, z)) == sum(Fold(step, p, x), Fold(step, q, y), Fold(step, r, z))
    decreases |x|
  {
    if x != [] {
      FoldAffine(step, sum, add, step(p, x[0]), step(q, y[0]), step(r, z[0]), x[1..], y[1..], z[1..]);
      assert Map3(add, x, y, z)[1..] == Map3(add, x[1..], y[1..], z[1..]);
    }
  }

  // Some bytes as one word, the first lowest.
  function Word<T, B>(xor: (T, T) -> T, zero: T, widen: B -> T, shift: T -> T, w: seq<B>): T {
    if w == [] then zero else xor(widen(w[0]), shift(Word(xor, zero, widen, shift, w[1..])))
  }

  // One byte into the register: xor it in, then k steps.
  function Feed<T, B>(f: T -> T, xor: (T, T) -> T, widen: B -> T, k: nat, c: T, b: B): T {
    Iterate(f, xor(c, widen(b)), k)
  }

  ghost predicate Feeds<T(!new), B(!new)>(step: (T, B) -> T, f: T -> T, xor: (T, T) -> T, widen: B -> T, k: nat) {
    forall c, b :: step(c, b) == Feed(f, xor, widen, k, c, b)
  }

  ghost predicate Unit<T(!new)>(xor: (T, T) -> T, zero: T) {
    forall x {:trigger xor(x, zero)} :: xor(x, zero) == x
  }

  ghost predicate Associative<T(!new)>(xor: (T, T) -> T) {
    forall x, y, z {:trigger xor(x, xor(y, z))} :: xor(x, xor(y, z)) == xor(xor(x, y), z)
  }

  // k steps shift a word of at most three bytes out unchanged.
  ghost predicate ShiftsWordsOut<T(!new), B(!new)>(f: T -> T, xor: (T, T) -> T, zero: T, widen: B -> T, shift: T -> T, k: nat) {
    forall v: seq<B> | |v| <= 3 :: Iterate(f, shift(Word(xor, zero, widen, shift, v)), k) == Word(xor, zero, widen, shift, v)
  }

  function Times(k: nat, n: nat): nat {
    if n == 0 then 0 else k + Times(k, n - 1)
  }

  // Feeding the first byte of a word leaves the word of the others to be fed.
  ghost predicate FeedsWords<T(!new), B(!new)>(step: (T, B) -> T, f: T -> T, xor: (T, T) -> T, zero: T, widen: B -> T,
                                               shift: T -> T, k: nat) {
    forall c, w: seq<B> | 1 <= |w| <= 4 ::
      Iterate(f, xor(c, Word(xor, zero, widen, shift, w)), k) == xor(step(c, w[0]), Word(xor, zero, widen, shift, w[1..]))
  }

  /** Up to four bytes enter a linear register like one word, if feeding one byte shifts a word that
      fits out unchanged. */
  lemma FoldIsShift<T(!new), B(!new)>(step: (T, B) -> T, f: T -> T, xor: (T, T) -> T, zero: T, widen: B -> T,
                                      shift: T -> T, k: nat, c: T, w: seq<B>)
    requires |w| <= 4 && Linear(f, xor) && Feeds(step, f, xor, widen, k)
    requires ShiftsWordsOut(f, xor, zero, widen, shift, k) && Unit(xor, zero) && Associative(xor)
    ensures Fold(step, c, w) == Iterate(f, xor(c, Word(xor, zero, widen, shift, w)), Times(k, |w|))
  {
    forall d, v: seq<B> | 1 <= |v| <= 4
      ensures Iterate(f, xor(d, Word(xor, zero, widen, shift, v)), k) == xor(step(d, v[0]), Word(xor, zero, widen, shift, v[1..]))
    {
      WordFirst(step, f, xor, zero, widen, shift, k, d, v);
    }
    FoldWords(step, f, xor, zero, widen, shift, k, c, w);
  }

  lemma {:induction false} FoldWords<T(!new), B(!new)>(step: (T, B) -> T, f: T -> T, xor: (T, T) -> T, zero: T, widen: B -> T,
                                                       shift: T -> T, k: nat, c: T, w: seq<B>)
    requires |w| <= 4 && FeedsWords(step, f, xor, zero, widen, shift, k) && Unit(xor, zero)
    ensures Fold(step, c, w) == Iterate(f, xor(c, Word(xor, zero, widen, shift, w)), Times(k, |w|))
    decreases |w|
  {
    if w == [] {
      assert xor(c, zero) == c;
    } else {
      var whole := xor(c, Word(xor, zero, widen, shift, w));
      assert Iterate(f, whole, k) == xor(step(c, w[0]), Word(xor, zero, widen, shift, w[1..]));
      FoldWords(step, f, xor, zero, widen, shift, k, step(c, w[0]), w[1..]);
      FoldFirst(step, f, c, w, whole, k, Times(k, |w| - 1));
    }
  }

  lemma FoldFirst<T, B>(step: (T, B) -> T, f: T -> T, c: T, w: seq<B>, x: T, k: nat, n: nat)
    requires w != [] && Fold(step, step(c, w[0]), w[1..]) == Iterate(f, Iterate(f, x, k), n)
    ensures Fold(step, c, w) == Iterate(f, x, k + n)
  {
    IterateSplit(f, x, k, n);
  }

  // Feeding the first byte leaves the word of the others to be fed.
  lemma WordFirst<T(!new), B(!new)>(step: (T, B) -> T, f: T -> T, xor: (T, T) -> T, zero: T, widen: B -> T,
                                    shift: T -> T, k: nat, c: T, w: seq<B>)
    requires 1 <= |w| <= 4 && Linear(f, xor) && Feeds(step, f, xor, widen, k)
    requires ShiftsWordsOut(f, xor, zero, widen, shift, k) && Associative(xor)
    ensures Iterate(f, xor(c, Word(xor, zero, widen, shift, w)), k) == xor(step(c, w[0]), Word(xor, zero, widen, shift, w[1..]))
  {
    var y := Word(xor, zero, widen, shift, w[1..]);
    assert Iterate(f, shift(y), k) == y;
    FeedFirst(f, xor, k, c, widen(w[0]), shift(y));
    assert step(c, w[0]) == Feed(f, xor, widen, k, c, w[0]);
  }

  lemma FeedFirst<T(!new)>(f: T -> T, xor: (T, T) -> T, k: nat, c: T, a: T, s: T)
    requires Linear(f, xor) && Associative(xor)
    ensures Iterate(f, xor(c, xor(a, s)), k) == xor(Iterate(f, xor(c, a), k), Iterate(f, s, k))
  {
    assert xor(c, xor(a, s)) == xor(xor(c, a), s);
    IterateLinear(f, xor, xor(c, a), s, k);
  }
}
