/** Fixed-width unsigned integers, and the big-endian byte order of mqas/comm/binary.hpp. */
module Bytes {
  type u8 = x: int | 0 <= x < 0x100
  type u16 = x: int | 0 <= x < 0x1_0000
  type u32 = x: int | 0 <= x < 0x1_0000_0000

  type i16 = x: int | -0x8000 <= x < 0x8000

  // Conversion to int16_t (and to short).
  function ToI16(x: int): i16 { (x + 0x8000) % 0x1_0000 - 0x8000 }

  // Both conversions keep the number modulo the width of the type they convert to.
  lemma ToI16IsCongruent(x: int)
    ensures (ToI16(x) - x) % 0x1_0000 == 0 && (-0x8000 <= x < 0x8000 ==> ToI16(x) == x)
  {
  }

  // 256^n, written as a recursion so that it stays small for the solver.
  function Pow256(n: nat): (p: nat)
    ensures p >= 1
  {
    if n == 0 then 1 else 256 * Pow256(n - 1)
  }

  // The number a big-endian byte string denotes.
  function Value(b: seq<u8>): (v: nat)
    ensures v < Pow256(|b|)
  {
    if b == [] then 0 else Value(b[..|b| - 1]) * 256 + b[|b| - 1]
  }

  // The n-byte big-endian form of v.
  function BigEndian(v: nat, n: nat): (b: seq<u8>)
    ensures |b| == n
  {
    if n == 0 then [] else BigEndian(v / 256, n - 1) + [v % 256]
  }

  lemma {:induction false} ValueOfBigEndian(v: nat, n: nat)
    requires v < Pow256(n)
    ensures Value(BigEndian(v, n)) == v
  {
    if n > 0 {
      ValueOfBigEndian(v / 256, n - 1);
      var b := BigEndian(v, n);
      assert b[..n - 1] == BigEndian(v / 256, n - 1);
    }
  }

  lemma DivMod256(q: nat, r: u8)
    ensures (q * 256 + r) / 256 == q && (q * 256 + r) % 256 == r
  {
  }

  lemma {:induction false} BigEndianOfValue(b: seq<u8>)
    ensures BigEndian(Value(b), |b|) == b
  {
    if b != [] {
      var init, last := b[..|b| - 1], b[|b| - 1];
      BigEndianOfValue(init);
      DivMod256(Value(init), last);
      assert Value(b) == Value(init) * 256 + last;
      assert b == init + [last];
    }
  }

  lemma Pow256Values()
    ensures Pow256(1) == 0x100 && Pow256(2) == 0x1_0000 && Pow256(4) == 0x1_0000_0000
  {
    assert Pow256(1) == 256 * Pow256(0);
    assert Pow256(2) == 256 * Pow256(1);
    assert Pow256(3) == 256 * Pow256(2);
    assert Pow256(4) == 256 * Pow256(3);
  }

  // Which byte goes where: the most significant one first.
  lemma TwoBytes(v: u16)
    ensures BigEndian(v, 2) == [v / 0x100, v % 0x100]
  {
    assert BigEndian(v / 256 / 256, 0) == [];
    assert BigEndian(v / 256, 1) == [v / 256 % 256];
  }

  lemma FourBytes(v: u32)
    ensures BigEndian(v, 4) == [v / 0x100_0000, v / 0x1_0000 % 0x100, v / 0x100 % 0x100, v % 0x100]
  {
    var high, low := v / 0x1_0000, v % 0x1_0000;
    TwoBytes(high);
    assert BigEndian(v, 4) == BigEndian(v / 256 / 256, 2) + [v / 256 % 256] + [v % 256];
  }

  // The bitwise or of two non-negative integers.
  function BitOr(x: nat, y: nat): nat
    decreases x + y
  {
    if x == 0 && y == 0 then 0
    else 2 * BitOr(x / 2, y / 2) + if x % 2 == 1 || y % 2 == 1 then 1 else 0
  }

  // y shifted left by n bits.
  function Shl(y: nat, n: nat): (r: nat)
    ensures y > 0 ==> r > 0
  {
    if n == 0 then y else 2 * Shl(y, n - 1)
  }

  lemma {:induction false} OrWithZero(y: nat)
    ensures BitOr(0, y) == y
  {
    if y > 0 {
      OrWithZero(y / 2);
    }
  }

  // Or-ing with what is shifted far enough is adding: no bits overlap.
  lemma {:induction false} OrOfShifted(x: nat, y: nat, n: nat)
    requires x < Shl(1, n)
    ensures BitOr(x, Shl(y, n)) == x + Shl(y, n)
  {
    if n == 0 {
      OrWithZero(y);
    } else {
      OrOfShifted(x / 2, y, n - 1);
    }
  }

  lemma ShlEight(y: nat, n: nat)
    ensures Shl(y, n + 8) == 256 * Shl(y, n)
  {
    assert Shl(y, n + 2) == 4 * Shl(y, n);
    assert Shl(y, n + 4) == 4 * Shl(y, n + 2);
    assert Shl(y, n + 6) == 4 * Shl(y, n + 4);
    assert Shl(y, n + 8) == 4 * Shl(y, n + 6);
  }

  lemma ShlThirtyTwo(y: nat)
    ensures Shl(y, 32) == y * 0x1_0000_0000
  {
    ShlEight(y, 0);
    ShlEight(y, 8);
    ShlEight(y, 16);
    ShlEight(y, 24);
  }

  // How a little-endian host, the kind the program runs on, stores an n-byte integer.
  function Memory(v: nat, n: nat): (b: seq<u8>)
    ensures |b| == n
  {
    if n == 0 then [] else [v % 256] + Memory(v / 256, n - 1)
  }

  // The integer such a memory holds.
  function Load(b: seq<u8>): nat {
    if b == [] then 0 else b[0] + 256 * Load(b[1..])
  }

  lemma {:induction false} MemoryIsReversed(v: nat, n: nat, i: nat)
    requires i < n
    ensures BigEndian(v, n)[i] == Memory(v, n)[n - 1 - i]
  {
    if i < n - 1 {
      MemoryIsReversed(v / 256, n - 1, i);
    }
  }

  lemma {:induction false} LoadReversed(m: seq<u8>, b: seq<u8>)
    requires |m| == |b|
    requires forall k :: 0 <= k < |m| ==> m[k] == b[|b| - 1 - k]
    ensures Load(m) == Value(b)
  {
    if m != [] {
      LoadReversed(m[1..], b[..|b| - 1]);
    }
  }

  // The byte loop of `to_big_endian` through a span: the integer's memory, reversed.
  method ToBigEndian(v: nat, n: nat, out: array<u8>, offset: nat)
    requires offset + n <= out.Length
    modifies out
    ensures out[offset..offset + n] == BigEndian(v, n)
    ensures out[..offset] == old(out[..offset]) && out[offset + n..] == old(out[offset + n..])
  {
    var data := Memory(v, n);
    var i := 0;
    while i < n
      invariant 0 <= i <= n
      invariant forall k :: offset <= k < offset + i ==> out[k] == data[n - 1 - (k - offset)]
      invariant forall k :: 0 <= k < out.Length && !(offset <= k < offset + i) ==> out[k] == old(out[k])
    {
      out[i + offset] := data[n - i - 1];
      i := i + 1;
    }
    forall k | offset <= k < offset + n ensures out[k] == BigEndian(v, n)[k - offset] {
      MemoryIsReversed(v, n, k - offset);
    }
  }

  // The byte loop of `from_big_endian`: it fills the integer's memory back to front.
  method FromBigEndian(data: array<u8>, offset: nat, n: nat) returns (result: nat)
    requires offset + n <= data.Length
    ensures result == Value(data[offset..offset + n])
  {
    var memory := new u8[n];
    var i := 0;
    while i < n
      invariant 0 <= i <= n
      invariant forall k :: n - i <= k < n ==> memory[k] == data[n - 1 - k + offset]
    {
      memory[n - i - 1] := data[i + offset];
      i := i + 1;
    }
    result := Load(memory[..]);
    LoadReversed(memory[..], data[offset..offset + n]);
  }
}
