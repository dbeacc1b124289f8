/**
 CRC32C as the SSE4.2 crc32 instruction computes it: a reflected shift
 register over the polynomial 0x1EDC6F41, one bit at a time.

 A register is the sequence of its bits, least significant first. The
 running value of the program is a register of 32 bits; the eight-byte form
 of the instruction works in one of 64.
 */
module Crc32c {
  import opened Bytes

  type Register = r: seq<bool> | |r| >= 32 witness Clear(32)

  type Crc32 = r: seq<bool> | |r| == 32 witness Clear(32)

  /** A register of n clear bits. */
  function Clear(n: nat): (r: seq<bool>)
    ensures |r| == n
    ensures forall i :: 0 <= i < n ==> !r[i]
  {
    seq(n, _ => false)
  }

  /** The low bits of x, least significant first. */
  function Bits(x: nat, n: nat): (s: seq<bool>)
    ensures |s| == n
  {
    if n == 0 then [] else [x % 2 == 1] + Bits(x / 2, n - 1)
  }

  function Pow2(n: nat): nat {
    if n == 0 then 1 else 2 * Pow2(n - 1)
  }

  function Value(s: seq<bool>): (x: nat)
    ensures x < Pow2(|s|)
  {
    if s == [] then 0 else (if s[0] then 1 else 0) + 2 * Value(s[1..])
  }

  /** 0x1EDC6F41 with its 32 bits reversed. */
  function Poly(): (p: seq<bool>)
    ensures |p| == 32
  {
    Bits(0x82F6_3B78, 32)
  }

  /** a xor b, with b zero-extended to the width of a. */
  function Xor(a: seq<bool>, b: seq<bool>): (r: seq<bool>)
    requires |b| <= |a|
    ensures |r| == |a|
  {
    seq(|a|, i requires 0 <= i < |a| => a[i] != (i < |b| && b[i]))
  }

  function Not(a: seq<bool>): (r: seq<bool>)
    ensures |r| == |a|
  {
    seq(|a|, i requires 0 <= i < |a| => !a[i])
  }

  /** One bit through the register. */
  function BitStep(r: Register): (q: Register)
    ensures |q| == |r|
  {
    if r[0] then Xor(r[1..] + [false], Poly()) else r[1..] + [false]
  }

  function Steps(r: Register, n: nat): (q: Register)
    ensures |q| == |r|
    decreases n
  {
    if n == 0 then r else Steps(BitStep(r), n - 1)
  }

  /** The one-byte form of the instruction. */
  function ByteStep(c: Register, b: byte): (q: Register)
    ensures |q| == |c|
  {
    Steps(Xor(c, Bits(b, 8)), 8)
  }

  /** The register after one-byte steps over all of s. */
  function Run(c: Register, s: seq<byte>): (q: Register)
    ensures |q| == |c|
    decreases |s|
  {
    if s == [] then c else Run(ByteStep(c, s[0]), s[1..])
  }

  /** The bits of a byte string in the order the register takes them. */
  function AllBits(s: seq<byte>): (r: seq<bool>)
    ensures |r| == 8 * |s|
  {
    if s == [] then [] else Bits(s[0], 8) + AllBits(s[1..])
  }

  /**
   The eight-byte form of the instruction: fold a little-endian word into a
   register as wide as the word and shift it all the way through.
   */
  function WordStep(c: Crc32, word: seq<byte>): Crc32
    requires |word| == 8
  {
    Steps(Xor(c + Clear(32), AllBits(word)), 64)[..32]
  }

  /** The checksum of s continuing from a running value. */
  function Crc(crc: Crc32, s: seq<byte>): Crc32 {
    Not(Run(Not(crc), s))
  }

  // ---- the register is linear ----

  lemma BitStepXor(r: Register, h: seq<bool>)
    requires 0 < |h| <= |r| && !h[0]
    ensures BitStep(Xor(r, h)) == Xor(BitStep(r), h[1..])
  {}

  lemma {:induction false} StepsXor(r: Register, h: seq<bool>, n: nat)
    requires n <= |h| <= |r| && forall k :: 0 <= k < n ==> !h[k]
    ensures Steps(Xor(r, h), n) == Xor(Steps(r, n), h[n..])
    decreases n
  {
    hide BitStep;
    if n > 0 {
      BitStepXor(r, h);
      StepsXor(BitStep(r), h[1..], n - 1);
      assert h[1..][n - 1..] == h[n..];
    } else {
      assert h[0..] == h;
    }
  }

  lemma {:induction false} StepsAdd(r: Register, m: nat, n: nat)
    ensures Steps(r, m + n) == Steps(Steps(r, m), n)
    decreases m
  {
    hide BitStep;
    if m > 0 { StepsAdd(BitStep(r), m - 1, n); }
  }

  lemma XorSplit(c: seq<bool>, b: seq<bool>, rest: seq<bool>)
    requires |b| + |rest| <= |c|
    ensures Xor(c, b + rest) == Xor(Xor(c, b), Clear(|b|) + rest)
  {}

  /** Folding a whole string in at once and shifting it through is the byte loop. */
  lemma {:induction false} FoldWhole(c: Register, s: seq<byte>)
    requires 8 * |s| <= |c|
    ensures Steps(Xor(c, AllBits(s)), 8 * |s|) == Run(c, s)
    decreases |s|
  {
    hide BitStep, Bits;
    if s == [] {
      assert Xor(c, []) == c;
    } else {
      var b, rest := Bits(s[0], 8), AllBits(s[1..]);
      var h := Clear(8) + rest;
      XorSplit(c, b, rest);
      StepsAdd(Xor(c, b + rest), 8, 8 * |s[1..]|);
      StepsXor(Xor(c, b), h, 8);
      assert h[8..] == rest;
      FoldWhole(ByteStep(c, s[0]), s[1..]);
    }
  }

  // ---- a wider register only carries zeros along ----

  lemma BitStepWiden(c: Crc32)
    ensures BitStep(c + Clear(32)) == BitStep(c) + Clear(32)
  {}

  lemma {:induction false} StepsWiden(c: Crc32, n: nat)
    ensures Steps(c + Clear(32), n) == Steps(c, n) + Clear(32)
    decreases n
  {
    hide BitStep, Clear;
    if n > 0 {
      BitStepWiden(c);
      StepsWiden(BitStep(c), n - 1);
    }
  }

  lemma {:induction false} RunWiden(c: Crc32, s: seq<byte>)
    ensures Run(c + Clear(32), s) == Run(c, s) + Clear(32)
    decreases |s|
  {
    hide Steps, Bits;
    if s != [] {
      assert Xor(c + Clear(32), Bits(s[0], 8)) == Xor(c, Bits(s[0], 8)) + Clear(32);
      StepsWiden(Xor(c, Bits(s[0], 8)), 8);
      RunWiden(ByteStep(c, s[0]), s[1..]);
    }
  }

  /** The eight-byte step is eight one-byte steps. */
  lemma WordStepIsBytes(c: Crc32, word: seq<byte>)
    requires |word| == 8
    ensures WordStep(c, word) == Run(c, word)
  {
    hide Run, Steps, Xor, AllBits, Clear;
    FoldWhole(c + Clear(32), word);
    RunWiden(c, word);
  }

  // ---- chaining ----

  lemma {:induction false} RunConcat(c: Register, s: seq<byte>, t: seq<byte>)
    ensures Run(c, s + t) == Run(Run(c, s), t)
    decreases |s|
  {
    hide ByteStep;
    if s == [] {
      assert s + t == t;
    } else {
      assert (s + t)[1..] == s[1..] + t;
      RunConcat(ByteStep(c, s[0]), s[1..], t);
    }
  }

  lemma NotNot(c: seq<bool>)
    ensures Not(Not(c)) == c
  {}

  /** Feeding two chunks gives the same value as feeding their concatenation. */
  lemma CrcChains(crc: Crc32, s: seq<byte>, t: seq<byte>)
    ensures Crc(Crc(crc, s), t) == Crc(crc, s + t)
  {
    hide Run, Not;
    NotNot(Run(Not(crc), s));
    RunConcat(Not(crc), s, t);
  }

  // ---- what the checksum is certain to notice ----

  lemma {:induction false} TopBit(x: nat, k: nat)
    requires Pow2(k) <= x < Pow2(k + 1)
    ensures Bits(x, k + 1)[k]
    decreases k
  {
    if k > 0 {
      TopBit(x / 2, k - 1);
      assert Bits(x, k + 1)[k] == Bits(x / 2, k)[k - 1];
    }
  }

  lemma PolyTop()
    ensures Poly()[31]
  {
    assert Pow2(8) == 0x100;
    assert Pow2(16) == 0x100 * Pow2(8);
    assert Pow2(24) == 0x100 * Pow2(16);
    assert Pow2(31) == 0x80 * Pow2(24);
    TopBit(0x82F6_3B78, 31);
  }

  lemma {:induction false} ValueInjective(s: seq<bool>, t: seq<bool>)
    requires |s| == |t| && Value(s) == Value(t)
    ensures s == t
  {
    if s != [] {
      ValueInjective(s[1..], t[1..]);
      assert s == [s[0]] + s[1..] && t == [t[0]] + t[1..];
    }
  }

  lemma ShiftInjective(r: Crc32, q: Crc32, p: seq<bool>)
    requires |p| == 32 && p[31]
    requires (if r[0] then Xor(r[1..] + [false], p) else r[1..] + [false])
          == (if q[0] then Xor(q[1..] + [false], p) else q[1..] + [false])
    ensures r == q
  {
    var x := if r[0] then Xor(r[1..] + [false], p) else r[1..] + [false];
    var y := if q[0] then Xor(q[1..] + [false], p) else q[1..] + [false];
    assert x[31] == r[0] && y[31] == q[0];
    forall k | 0 <= k < 32
      ensures r[k] == q[k]
    {
      if k > 0 {
        assert x[k - 1] == (r[k] != (r[0] && p[k - 1]));
        assert y[k - 1] == (q[k] != (q[0] && p[k - 1]));
      }
    }
  }

  /** The generator's top bit is set, so a step loses nothing. */
  lemma BitStepInjective(r: Crc32, q: Crc32)
    requires BitStep(r) == BitStep(q)
    ensures r == q
  {
    PolyTop();
    ShiftInjective(r, q, Poly());
  }

  lemma {:induction false} StepsInjective(r: Crc32, q: Crc32, n: nat)
    requires Steps(r, n) == Steps(q, n)
    ensures r == q
    decreases n
  {
    hide BitStep;
    if n > 0 {
      StepsInjective(BitStep(r), BitStep(q), n - 1);
      BitStepInjective(r, q);
    }
  }

  lemma XorCancels(a: seq<bool>, b: seq<bool>, d: seq<bool>)
    requires |b| == |d| <= |a| && Xor(a, b) == Xor(a, d)
    ensures b == d
  {
    assert forall k :: 0 <= k < |b| ==> Xor(a, b)[k] == (a[k] != b[k]) && Xor(a, d)[k] == (a[k] != d[k]);
  }

  lemma XorCancelsLeft(a: seq<bool>, c: seq<bool>, b: seq<bool>)
    requires |b| <= |a| == |c| && Xor(a, b) == Xor(c, b)
    ensures a == c
  {
    assert forall k :: 0 <= k < |a| ==>
        Xor(a, b)[k] == (a[k] != (k < |b| && b[k])) && Xor(c, b)[k] == (c[k] != (k < |b| && b[k]));
  }

  /** Equal suffixes never bring two different registers together. */
  lemma {:induction false} RunInjective(c: Crc32, d: Crc32, s: seq<byte>)
    requires Run(c, s) == Run(d, s)
    ensures c == d
    decreases |s|
  {
    hide Steps, Xor, Bits;
    if s != [] {
      RunInjective(ByteStep(c, s[0]), ByteStep(d, s[0]), s[1..]);
      StepsInjective(Xor(c, Bits(s[0], 8)), Xor(d, Bits(s[0], 8)), 8);
      XorCancelsLeft(c, d, Bits(s[0], 8));
    }
  }

  lemma {:induction false} BitsInjective(x: nat, y: nat, n: nat)
    requires x < Pow2(n) && y < Pow2(n) && Bits(x, n) == Bits(y, n)
    ensures x == y
  {
    if n > 0 {
      assert Bits(x, n)[0] == Bits(y, n)[0];
      assert Bits(x, n)[1..] == Bits(x / 2, n - 1) && Bits(y, n)[1..] == Bits(y / 2, n - 1);
      BitsInjective(x / 2, y / 2, n - 1);
    }
  }

  lemma {:induction false} AllBitsInjective(s: seq<byte>, t: seq<byte>)
    requires |s| == |t| && AllBits(s) == AllBits(t)
    ensures s == t
  {
    hide Bits;
    if s != [] {
      assert AllBits(s)[..8] == Bits(s[0], 8) && AllBits(s)[8..] == AllBits(s[1..]);
      assert AllBits(t)[..8] == Bits(t[0], 8) && AllBits(t)[8..] == AllBits(t[1..]);
      assert Pow2(8) == 256;
      BitsInjective(s[0], t[0], 8);
      AllBitsInjective(s[1..], t[1..]);
      assert s == [s[0]] + s[1..] && t == [t[0]] + t[1..];
    }
  }

  lemma Pow2Is32()
    ensures Pow2(32) == 0x1_0000_0000
  {
    assert Pow2(8) == 0x100;
    assert Pow2(16) == 0x100 * Pow2(8);
    assert Pow2(24) == 0x100 * Pow2(16);
    assert Pow2(32) == 0x100 * Pow2(24);
  }

  /** The value a record stores. */
  function Sum(s: seq<byte>): u32 {
    Pow2Is32();
    Value(Crc(Clear(32), s))
  }

  /**
   Two strings of one length that differ only inside a window of at most four
   bytes never share a checksum, wherever the window is and however long the
   strings are.
   */
  lemma BurstDetected(before: seq<byte>, u: seq<byte>, v: seq<byte>, after: seq<byte>)
    requires |u| == |v| <= 4 && u != v
    ensures Sum(before + u + after) != Sum(before + v + after)
  {
    hide Run, Steps, Xor, AllBits, Value, Not, Clear;
    var start := Not(Clear(32));
    var c := Run(start, before);
    if Sum(before + u + after) == Sum(before + v + after) {
      ValueInjective(Crc(Clear(32), before + u + after), Crc(Clear(32), before + v + after));
      NotNot(Run(start, before + u + after));
      NotNot(Run(start, before + v + after));
      RunConcat(start, before + u, after);
      RunConcat(start, before + v, after);
      RunConcat(start, before, u);
      RunConcat(start, before, v);
      RunInjective(Run(c, u), Run(c, v), after);
      FoldWhole(c, u);
      FoldWhole(c, v);
      StepsInjective(Xor(c, AllBits(u)), Xor(c, AllBits(v)), 8 * |u|);
      XorCancels(c, AllBits(u), AllBits(v));
      AllBitsInjective(u, v);
    }
  }

  // ---- the routine itself ----

  lemma NextEight(c: Crc32, s: seq<byte>, i: nat)
    requires i + 8 <= |s|
    ensures WordStep(Run(c, s[..i]), s[i..i + 8]) == Run(c, s[..i + 8])
  {
    hide *;
    WordStepIsBytes(Run(c, s[..i]), s[i..i + 8]);
    RunConcat(c, s[..i], s[i..i + 8]);
    assert s[..i] + s[i..i + 8] == s[..i + 8];
  }

  lemma RunOne(c: Register, b: byte)
    ensures Run(c, [b]) == ByteStep(c, b)
  {
    hide ByteStep;
    assert [b][1..] == [];
  }

  lemma NextByte(c: Crc32, s: seq<byte>, i: nat)
    requires i < |s|
    ensures ByteStep(Run(c, s[..i]), s[i]) == Run(c, s[..i + 1])
  {
    hide *;
    RunOne(Run(c, s[..i]), s[i]);
    RunConcat(c, s[..i], [s[i]]);
    assert s[..i] + [s[i]] == s[..i + 1];
  }

  /** Eight bytes at a time, then the tail one byte at a time. */
  method Checksum(crc: Crc32, s: seq<byte>) returns (r: Crc32)
    ensures r == Crc(crc, s)
  {
    hide WordStep, ByteStep;
    if |s| == 0 {
      NotNot(crc);
      return crc;
    }
    var c: Crc32 := Not(crc);
    var i := 0;
    while |s| - i >= 8
      invariant 0 <= i <= |s|
      invariant c == Run(Not(crc), s[..i])
    {
      NextEight(Not(crc), s, i);
      c := WordStep(c, s[i..i + 8]);
      i := i + 8;
    }
    while i < |s|
      invariant 0 <= i <= |s|
      invariant c == Run(Not(crc), s[..i])
    {
      NextByte(Not(crc), s, i);
      c := ByteStep(c, s[i]);
      i := i + 1;
    }
    assert s[..i] == s;
    r := Not(c);
  }
}
