/** The sieve of the complex sample. */
module Sieve {

  ghost predicate Divides(d: int, k: int) {
    exists e :: 0 < e && k == d * e
  }

  ghost predicate Prime(k: int) {
    k >= 2 && forall d | 2 <= d < k :: !Divides(d, k)
  }

  /** Exactly the primes up to n, in increasing order. */
  ghost predicate PrimesUpTo(s: seq<int>, n: int) {
    (forall k :: k in s <==> Prime(k) && k <= n)
    && forall i, j | 0 <= i < j < |s| :: s[i] < s[j]
  }

  // The sieve crosses k out on account of d.
  ghost predicate Hit(d: int, k: int) {
    d * d <= k && Divides(d, k)
  }

  ghost predicate Marked(k: int, i: int) {
    exists d | 2 <= d < i :: Hit(d, k)
  }

  lemma HitLowers(d: int, k: int)
    requires 2 <= d && Hit(d, k)
    ensures d < k
  {
    assert d * d >= 2 * d;
  }

  /** Stopping at the square root is enough: what is not crossed out by then is prime. */
  lemma MarkedIsComposite(k: int, i: int, n: int)
    requires 2 <= k <= n < i * i && 2 <= i
    ensures Marked(k, i) <==> !Prime(k)
  {
    if Marked(k, i) {
      var d :| 2 <= d < i && Hit(d, k);
      HitLowers(d, k);
    }
    if !Prime(k) {
      var d :| 2 <= d < k && Divides(d, k);
      SmallDivisor(d, k, i);
    }
  }

  lemma SmallDivisor(d: int, k: int, i: int)
    requires 2 <= d < k < i * i && 2 <= i && Divides(d, k)
    ensures Marked(k, i)
  {
    var e :| 0 < e && k == d * e;
    var s := if d <= e then d else e;
    Smaller(d, e);
    if s >= i { Squares(i, s); }
    assert Hit(s, k);
  }

  lemma Smaller(d: int, e: int)
    requires 0 < d && 0 < e
    ensures d <= e ==> d * d <= d * e && Divides(d, d * e)
    ensures e <= d ==> e * e <= d * e && Divides(e, d * e)
  {
    if d <= e {
      assert d * (e - d) >= 0;
    }
    if e <= d {
      assert e * (d - e) >= 0;
      assert d * e == e * d;
    }
  }

  lemma Squares(a: int, b: int)
    requires 0 <= a <= b
    ensures a * a <= b * b
  {
    assert a * a <= a * b <= b * b;
  }

  /** Skipping a crossed-out i loses nothing: its multiples are crossed out already. */
  lemma SkippedIsMarked(i: int, k: int)
    requires 2 <= i && Marked(i, i) && Hit(i, k)
    ensures Marked(k, i)
  {
    var d :| 2 <= d < i && Hit(d, i);
    var e :| 0 < e && i == d * e;
    var f :| 0 < f && k == i * f;
    Chain(d, e, f);
    Squares(d, i);
    assert Divides(d, k);
    assert Hit(d, k);
  }

  lemma Chain(d: int, e: int, f: int)
    requires 0 < e && 0 < f
    ensures (d * e) * f == d * (e * f) && 0 < e * f
  {
  }

  lemma MarkedNext(k: int, i: int)
    requires 2 <= i
    ensures Marked(k, i + 1) <==> Marked(k, i) || Hit(i, k)
  {
  }

  lemma Product(i: int, a: int, b: int)
    requires 0 < i && a <= b
    ensures i * a <= i * b
  {
    assert i * (b - a) >= 0;
  }

  // No multiple of i lies strictly between j and j + i.
  lemma NoneBetween(i: int, q: int, k: int)
    requires 0 < i && i * q < k < i * q + i
    ensures !Divides(i, k)
  {
    if Divides(i, k) {
      var e :| 0 < e && k == i * e;
      assert i * (q + 1) == i * q + i;
      if e <= q { Product(i, e, q); } else { Product(i, q + 1, e); }
    }
  }

  // The marks while the multiples of i below j are crossed out.
  ghost predicate Partly(marks: seq<bool>, i: int, j: int) {
    forall k | 2 <= k < |marks| :: marks[k] <==> !(Marked(k, i) || (Hit(i, k) && k < j))
  }

  lemma CrossOne(marks: seq<bool>, i: int, q: int)
    requires 2 <= i <= q && i * q < |marks| && Partly(marks, i, i * q) && i * q >= 2
    ensures Partly(marks[i * q := false], i, i * (q + 1))
  {
    assert i * (q + 1) == i * q + i;
    assert Hit(i, i * q) by { Smaller(i, q); }
    forall k | 2 <= k < |marks|
      ensures marks[i * q := false][k] <==> !(Marked(k, i) || (Hit(i, k) && k < i * (q + 1)))
    {
      if i * q < k < i * (q + 1) { NoneBetween(i, q, k); }
    }
  }

  /** Marking from i * i is enough: what is smaller has a smaller divisor. */
  lemma MultiplesDone(marks: seq<bool>, i: int, j: int)
    requires 2 <= i && |marks| <= j && Partly(marks, i, j)
    ensures Partly(marks, i + 1, 0)
  {
    forall k | 2 <= k < |marks| ensures marks[k] <==> !(Marked(k, i + 1) || (Hit(i + 1, k) && k < 0)) {
      MarkedNext(k, i);
    }
  }

  lemma NothingCrossedYet(marks: seq<bool>, i: int)
    requires 2 <= i && Partly(marks, i, 0)
    ensures Partly(marks, i, i * i)
  {
  }

  lemma SkipDone(marks: seq<bool>, i: int)
    requires 2 <= i < |marks| && Partly(marks, i, 0) && !marks[i]
    ensures Partly(marks, i + 1, 0)
  {
    forall k | 2 <= k < |marks| ensures marks[k] <==> !(Marked(k, i + 1) || (Hit(i + 1, k) && k < 0)) {
      MarkedNext(k, i);
      if Hit(i, k) { SkippedIsMarked(i, k); }
    }
  }

  method MarkMultiples(isPrime: array<bool>, i: int, n: int)
    requires n == isPrime.Length - 1 && 2 <= i <= n && Partly(isPrime[..], i, 0)
    modifies isPrime
    ensures Partly(isPrime[..], i + 1, 0)
  {
    NothingCrossedYet(isPrime[..], i);
    var j := i * i;
    ghost var q := i;
    while j <= n
      invariant i <= q && j == i * q >= 2
      invariant Partly(isPrime[..], i, j)
    {
      CrossOne(isPrime[..], i, q);
      isPrime[j] := false;
      q := q + 1;
      j := j + i;
    }
    MultiplesDone(isPrime[..], i, j);
  }

  ghost predicate Sieved(marks: seq<bool>) {
    forall k | 2 <= k < |marks| :: marks[k] <==> Prime(k)
  }

  lemma AllSieved(marks: seq<bool>, i: int)
    requires 2 <= i && |marks| <= i * i && Partly(marks, i, 0)
    ensures Sieved(marks)
  {
    forall k | 2 <= k < |marks| ensures marks[k] <==> Prime(k) {
      MarkedIsComposite(k, i, |marks| - 1);
    }
  }

  lemma RootIsSmaller(i: int, n: int)
    requires 2 <= i && i * i <= n
    ensures i <= n
  {
    assert 2 * i <= i * i;
  }

  method SievedMarks(n: int) returns (isPrime: array<bool>)
    requires n > 0
    ensures isPrime.Length == n + 1 && Sieved(isPrime[..])
  {
    isPrime := new bool[n + 1](i => true);
    isPrime[0] := false;
    isPrime[1] := false;
    var i := 2;
    while i * i <= n
      invariant 2 <= i
      invariant Partly(isPrime[..], i, 0)
      decreases n - i
    {
      RootIsSmaller(i, n);
      if isPrime[i] {
        MarkMultiples(isPrime, i, n);
      } else {
        SkipDone(isPrime[..], i);
      }
      i := i + 1;
    }
    AllSieved(isPrime[..], i);
  }

  lemma CollectOne(s: seq<int>, i: int, prime: bool)
    requires PrimesUpTo(s, i - 1) && prime == Prime(i)
    ensures PrimesUpTo(if prime then s + [i] else s, i)
  {
    var t := if prime then s + [i] else s;
    forall j | 0 <= j < |s| ensures s[j] < i { assert s[j] in s; }
    forall k ensures k in t <==> Prime(k) && k <= i {
      assert k in t <==> k in s || (prime && k == i);
    }
  }

  /** Refuses what is not positive; otherwise the primes up to n. */
  method GeneratePrimeNumbers(n: int) returns (ok: bool, primes: seq<int>)
    ensures ok == (n > 0)
    ensures if ok then PrimesUpTo(primes, n) else primes == []
  {
    ok, primes := n > 0, [];
    if !ok {
      return;
    }
    var isPrime := SievedMarks(n);
    ghost var marks := isPrime[..];
    for i := 2 to n + 1
      invariant isPrime[..] == marks
      invariant PrimesUpTo(primes, i - 1)
    {
      CollectOne(primes, i, marks[i]);
      if isPrime[i] {
        primes := primes + [i];
      }
    }
  }

  /** There is only one such list. */
  lemma OneListOfPrimes(s: seq<int>, t: seq<int>, n: int)
    requires PrimesUpTo(s, n) && PrimesUpTo(t, n)
    ensures s == t
  {
    SameIncreasing(s, t);
  }

  lemma HeadIsIn(s: seq<int>)
    ensures s != [] ==> s[0] in s
  {
  }

  lemma InTail(s: seq<int>, k: int)
    requires s != [] && forall i, j | 0 <= i < j < |s| :: s[i] < s[j]
    ensures k in s[1..] <==> k in s && k != s[0]
    ensures k in s ==> s[0] <= k
  {
    assert s == [s[0]] + s[1..];
  }

  lemma {:induction false} SameIncreasing(s: seq<int>, t: seq<int>)
    requires forall k :: k in s <==> k in t
    requires forall i, j | 0 <= i < j < |s| :: s[i] < s[j]
    requires forall i, j | 0 <= i < j < |t| :: t[i] < t[j]
    ensures s == t
    decreases |s|
  {
    HeadIsIn(s);
    HeadIsIn(t);
    if s != [] {
      InTail(s, t[0]);
      InTail(t, s[0]);
      forall k ensures k in s[1..] <==> k in t[1..] {
        InTail(s, k);
        InTail(t, k);
      }
      SameIncreasing(s[1..], t[1..]);
    }
  }
}
