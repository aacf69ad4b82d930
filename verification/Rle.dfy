/** Run-length coding of the compression sample: pairs of a count byte and a character. */
module Rle {

  newtype byte = x: int | 0 <= x < 256

  const MAX_RLE_COUNT := 255

  function Repeat(n: nat, c: byte): (r: seq<byte>)
    ensures |r| == n && forall i | 0 <= i < n :: r[i] == c
  {
    if n == 0 then [] else [c] + Repeat(n - 1, c)
  }

  // How many bytes at the front are equal, at most 255.
  function RunFrom(s: seq<byte>, n: nat): (m: nat)
    requires 1 <= n <= |s| && n <= MAX_RLE_COUNT
    ensures n <= m <= |s| && m <= MAX_RLE_COUNT
    decreases |s| - n
  {
    if n < |s| && s[n] == s[0] && n < MAX_RLE_COUNT then RunFrom(s, n + 1) else n
  }

  function Run(s: seq<byte>): nat
    requires s != []
  {
    RunFrom(s, 1)
  }

  function Encode(s: seq<byte>): seq<byte>
    decreases |s|
  {
    if s == [] then [] else [Run(s) as byte, s[0]] + Encode(s[Run(s)..])
  }

  function Decode(p: seq<byte>): seq<byte> {
    if |p| < 2 then [] else Repeat(p[0] as nat, p[1]) + Decode(p[2..])
  }

  lemma {:induction false} RunFromFacts(s: seq<byte>, n: nat)
    requires 1 <= n <= |s| && n <= MAX_RLE_COUNT
    ensures var m := RunFrom(s, n);
            && (forall i | n <= i < m :: s[i] == s[0])
            && (m == MAX_RLE_COUNT || m == |s| || s[m] != s[0])
    decreases |s| - n
  {
    if n < |s| && s[n] == s[0] && n < MAX_RLE_COUNT { RunFromFacts(s, n + 1); }
  }

  /** The run is equal throughout, and ends only at 255, at the end or before another byte. */
  lemma RunFacts(s: seq<byte>)
    requires s != []
    ensures forall i | 0 <= i < Run(s) :: s[i] == s[0]
    ensures Run(s) == MAX_RLE_COUNT || Run(s) == |s| || s[Run(s)] != s[0]
  {
    RunFromFacts(s, 1);
  }

  // A run that ends where the longest run must end is that run.
  lemma RunIs(s: seq<byte>, n: nat)
    requires 1 <= n <= |s| && n <= MAX_RLE_COUNT && forall i | 0 <= i < n :: s[i] == s[0]
    requires n == MAX_RLE_COUNT || n == |s| || s[n] != s[0]
    ensures Run(s) == n
  {
    RunFacts(s);
  }

  lemma EncodeRun(n: nat, c: byte, rest: seq<byte>)
    requires 1 <= n <= MAX_RLE_COUNT && (n == MAX_RLE_COUNT || rest == [] || rest[0] != c)
    ensures Encode(Repeat(n, c) + rest) == [n as byte, c] + Encode(rest)
  {
    var s := Repeat(n, c) + rest;
    RunIs(s, n);
    assert s[n..] == rest;
  }

  lemma RepeatMore(n: nat, c: byte)
    ensures Repeat(n, c) + [c] == Repeat(n + 1, c)
  {
    assert forall i | 0 <= i <= n :: (Repeat(n, c) + [c])[i] == c;
  }

  lemma LongerRun(n: nat, c: byte, s: seq<byte>)
    requires s != [] && s[0] == c
    ensures Repeat(n, c) + s == Repeat(n + 1, c) + s[1..]
  {
    RepeatMore(n, c);
    assert s == [c] + s[1..];
  }

  // What is written, followed by the code of the open run and the bytes not yet read.
  ghost predicate Whole(output: seq<byte>, count: nat, current: byte, rest: seq<byte>, input: seq<byte>) {
    1 <= count <= MAX_RLE_COUNT && output + Encode(Repeat(count, current) + rest) == Encode(input)
  }

  lemma FirstByte(input: seq<byte>)
    requires input != []
    ensures Whole([], 1, input[0], input[1..], input)
  {
    assert Repeat(1, input[0]) + input[1..] == input;
  }

  lemma CloseRun(output: seq<byte>, count: nat, current: byte, rest: seq<byte>, input: seq<byte>)
    requires Whole(output, count, current, rest, input)
    requires count == MAX_RLE_COUNT || rest == [] || rest[0] != current
    ensures output + [count as byte] + [current] + Encode(rest) == Encode(input)
  {
    EncodeRun(count, current, rest);
    assert output + ([count as byte, current] + Encode(rest)) == output + [count as byte] + [current] + Encode(rest);
  }

  lemma NextRun(output: seq<byte>, rest: seq<byte>, input: seq<byte>)
    requires rest != [] && output + Encode(rest) == Encode(input)
    ensures Whole(output, 1, rest[0], rest[1..], input)
  {
    assert Repeat(1, rest[0]) + rest[1..] == rest;
  }

  method CompressRLE(input: seq<byte>) returns (output: seq<byte>)
    ensures output == Encode(input)
  {
    output := [];
    if input == [] {
      return;
    }
    var current := input[0];
    var count := 1;
    FirstByte(input);
    for i := 1 to |input|
      invariant Whole(output, count, current, input[i..], input)
    {
      ghost var rest := input[i..];
      assert rest[1..] == input[i + 1..];
      if input[i] == current && count < MAX_RLE_COUNT {
        LongerRun(count, current, rest);
        count := count + 1;
      } else {
        CloseRun(output, count, current, rest, input);
        output := output + [count as byte];
        output := output + [current];
        NextRun(output, rest, input);
        current := input[i];
        count := 1;
      }
    }
    CloseRun(output, count, current, [], input);
    output := output + [count as byte];
    output := output + [current];
  }

  method DecompressRLE(input: seq<byte>) returns (output: seq<byte>)
    ensures output == Decode(input)
  {
    output := [];
    var i := 0;
    while i < |input|
      invariant 0 <= i
      invariant output + Decode(input[if i < |input| then i else |input|..]) == Decode(input)
    {
      if i + 1 >= |input| {
        break;
      }
      var count, ch := input[i] as nat, input[i + 1];
      assert input[i..][0] == input[i] && input[i..][1] == ch && input[i..][2..] == input[i + 2..];
      output := output + Repeat(count, ch);
      i := i + 2;
    }
  }

  // ---------------------------------------------------------------- both directions

  lemma EncodeFirst(s: seq<byte>, n: nat)
    requires s != [] && n == Run(s)
    ensures Encode(s) == [n as byte, s[0]] + Encode(s[n..]) && s == Repeat(n, s[0]) + s[n..]
  {
    RunFacts(s);
  }

  lemma DecodeFirst(n: nat, c: byte, p: seq<byte>)
    requires n <= MAX_RLE_COUNT
    ensures Decode([n as byte, c] + p) == Repeat(n, c) + Decode(p)
  {
    assert ([n as byte, c] + p)[2..] == p;
  }

  /** Decompressing what was compressed gives every byte string back. */
  lemma {:induction false} RoundTrip(s: seq<byte>)
    ensures Decode(Encode(s)) == s
    decreases |s|
  {
    if s != [] {
      var n := Run(s);
      EncodeFirst(s, n);
      DecodeFirst(n, s[0], Encode(s[n..]));
      RoundTrip(s[n..]);
    }
  }

  /** Whole pairs, every count 1..255, and neighbours with the same character only after a full run. */
  ghost predicate Canonical(p: seq<byte>) {
    p == [] || (|p| >= 2 && 1 <= p[0] && Canonical(p[2..])
                && (|p| >= 4 && p[1] == p[3] ==> p[0] == 255))
  }

  lemma {:induction false} EncodeCanonical(s: seq<byte>)
    ensures Canonical(Encode(s)) && |Encode(s)| <= 2 * |s|
    decreases |s|
  {
    if s != [] {
      var n := Run(s);
      RunFacts(s);
      EncodeFirst(s, n);
      EncodeCanonical(s[n..]);
      assert Encode(s)[2..] == Encode(s[n..]);
      if n < |s| { EncodeFirst(s[n..], Run(s[n..])); }
    }
  }

  lemma {:induction false} CanonicalIsEncoded(p: seq<byte>)
    requires Canonical(p)
    ensures Encode(Decode(p)) == p && (p != [] ==> Decode(p) != [] && Decode(p)[0] == p[1])
    decreases |p|
  {
    if p != [] {
      CanonicalIsEncoded(p[2..]);
      EncodeRun(p[0] as nat, p[1], Decode(p[2..]));
    }
  }

  /** The compressor's outputs are exactly the canonical strings. */
  lemma OutputsAreCanonical(p: seq<byte>)
    ensures Canonical(p) <==> exists s :: Encode(s) == p
  {
    if Canonical(p) {
      CanonicalIsEncoded(p);
    }
    forall s | Encode(s) == p ensures Canonical(p) { EncodeCanonical(s); }
  }

  // ---------------------------------------------------------------- no shorter coding

  lemma EncodeLength(s: seq<byte>)
    requires s != []
    ensures |Encode(s)| == 2 + |Encode(s[Run(s)..])|
  {
  }

  lemma DropTwice(s: seq<byte>, i: nat, j: nat)
    requires i + j <= |s|
    ensures s[i..][j..] == s[i + j..]
  {
  }

  lemma {:induction false} TailRun(s: seq<byte>)
    requires |s| > 1 && Run(s) > 1
    ensures Run(s) <= 1 + Run(s[1..]) <= Run(s) + 1 && 1 + Run(s[1..]) <= |s|
  {
    RunFacts(s);
    RunFacts(s[1..]);
    TailAt(s, Run(s[1..]));
    TailAt(s, Run(s) - 1);
  }

  lemma TailAt(s: seq<byte>, i: nat)
    requires |s| > 1
    ensures i < |s| - 1 ==> s[1..][i] == s[i + 1]
  {
  }

  // Dropping a byte from the front never makes the code longer.
  lemma {:induction false} TailNoLonger(s: seq<byte>)
    requires s != []
    ensures |Encode(s[1..])| <= |Encode(s)|
    decreases |s|
  {
    var n := Run(s);
    EncodeLength(s);
    if n > 1 { LongRunTail(s, n); }
  }

  lemma {:induction false} LongRunTail(s: seq<byte>, n: nat)
    requires |s| > 1 && n == Run(s) > 1
    ensures |Encode(s[1..])| <= 2 + |Encode(s[n..])|
    decreases |s|, 0
  {
    TailRest(s, n);
    EncodeLength(s[1..]);
    if s[n..] != [] { TailNoLonger(s[n..]); }
  }

  // What follows the run of the tail is what follows the run, or one byte less.
  lemma TailRest(s: seq<byte>, n: nat)
    requires |s| > 1 && n == Run(s) > 1
    ensures var rest := s[1..][Run(s[1..])..];
            rest == s[n..] || (s[n..] != [] && rest == s[n..][1..])
  {
    TailRun(s);
    DropTwice(s, 1, Run(s[1..]));
    if 1 + Run(s[1..]) > n { DropTwice(s, n, 1); }
  }

  lemma {:induction false} SuffixNoLonger(s: seq<byte>, k: nat)
    requires k <= |s|
    ensures |Encode(s[k..])| <= |Encode(s)|
    decreases k
  {
    if k > 0 {
      TailNoLonger(s);
      DropTwice(s, 1, k - 1);
      SuffixNoLonger(s[1..], k - 1);
    } else {
      assert s[0..] == s;
    }
  }

  // The compressor does no worse than any first pair.
  lemma FirstPair(n: nat, c: byte, rest: seq<byte>)
    requires n <= MAX_RLE_COUNT
    ensures |Encode(Repeat(n, c) + rest)| <= 2 + |Encode(rest)|
  {
    if n == 0 {
      assert Repeat(0, c) + rest == rest;
    } else {
      var s := Repeat(n, c) + rest;
      RunCovers(n, c, rest);
      EncodeLength(s);
      AfterPair(n, c, rest, Run(s));
      SuffixNoLonger(rest, Run(s) - n);
    }
  }

  lemma AfterPair(n: nat, c: byte, rest: seq<byte>, m: nat)
    requires n <= m <= n + |rest|
    ensures (Repeat(n, c) + rest)[m..] == rest[m - n..]
  {
  }

  lemma RunCovers(n: nat, c: byte, rest: seq<byte>)
    requires 0 < n <= MAX_RLE_COUNT
    ensures n <= Run(Repeat(n, c) + rest) <= n + |rest|
  {
    var s := Repeat(n, c) + rest;
    RunFacts(s);
    assert forall i | 0 <= i < n :: s[i] == c;
  }

  /** No string of pairs that decompresses to s is shorter than the compressed s. */
  lemma {:induction false} NoShorterCode(p: seq<byte>)
    ensures |Encode(Decode(p))| <= |p|
    decreases |p|
  {
    if |p| >= 2 {
      NoShorterCode(p[2..]);
      FirstPair(p[0] as nat, p[1], Decode(p[2..]));
    }
  }
}
