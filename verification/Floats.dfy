/** IEEE 754 binary64 values by their bits, and the narrower formats a float is
    written in when nothing is lost. */
module Floats {
  import opened Bytes

  const MANTISSA: nat := 0x10_0000_0000_0000
  const SIGN: nat := 0x8000_0000_0000_0000

  predicate Finite(bits: u64) {
    bits / MANTISSA % 2048 != 2047
  }

  function Shl(m: nat, n: nat): (r: nat)
    ensures m > 0 ==> r > 0
  {
    if n == 0 then m else 2 * Shl(m, n - 1)
  }

  function Shr(m: nat, n: nat): (r: nat) {
    if n == 0 then m else Shr(m / 2, n - 1)
  }

  lemma {:induction false} ShlInside(m: nat, n: nat)
    ensures Shl(2 * m, n) == 2 * Shl(m, n)
  {
    if n > 0 {
      ShlInside(m, n - 1);
    }
  }

  lemma {:induction false} ShrShl(m: nat, n: nat)
    ensures Shr(Shl(m, n), n) == m
  {
    if n > 0 {
      assert Shl(m, n) / 2 == Shl(m, n - 1);
      ShrShl(m, n - 1);
    }
  }

  lemma {:induction false} ShlOrder(a: nat, b: nat, n: nat)
    requires a < b
    ensures Shl(a, n) < Shl(b, n)
  {
    if n > 0 {
      ShlOrder(a, b, n - 1);
    }
  }

  lemma {:induction false} ShlCombine(m: nat, j: nat, n: nat)
    requires j <= n
    ensures Shl(Shl(m, j), n - j) == Shl(m, n)
    decreases n - j
  {
    if j < n {
      ShlCombine(m, j + 1, n);
      ShlInside(Shl(m, j), n - j - 1);
      assert Shl(m, j + 1) == 2 * Shl(m, j);
    }
  }

  lemma {:induction false} ShlMonotone(m: nat, j: nat, n: nat)
    requires j <= n
    ensures Shl(m, j) <= Shl(m, n)
  {
    if j < n {
      ShlMonotone(m, j, n - 1);
    }
  }

  lemma Shl52()
    ensures Shl(1, 10) == 0x400 && Shl(1, 23) == 0x80_0000 && Shl(1, 52) == MANTISSA
  {
    assert Shl(1, 8) == 0x100;
    assert Shl(1, 16) == 0x1_0000;
    assert Shl(1, 24) == 0x100_0000;
    assert Shl(1, 32) == 0x1_0000_0000;
    assert Shl(1, 40) == 0x100_0000_0000;
    assert Shl(1, 48) == 0x1_0000_0000_0000;
  }

  lemma ShiftBelow(m: nat, k: nat)
    requires k <= 52
    ensures m < Shl(1, k) ==> Shl(m, 52 - k) < MANTISSA
    ensures Shl(1, 10) == 0x400 && Shl(1, 23) == 0x80_0000
  {
    Shl52();
    if m < Shl(1, k) {
      ShlOrder(m, Shl(1, k), 52 - k);
      ShlCombine(1, k, 52);
    }
  }

  lemma {:induction false} ShrBelow(m: nat, b: nat, n: nat)
    requires m < Shl(b, n)
    ensures Shr(m, n) < b
  {
    if n > 0 {
      ShrBelow(m / 2, b, n - 1);
    }
  }

  lemma UnshiftBelow(m: nat, k: nat)
    requires k <= 52 && m < MANTISSA
    ensures Shr(m, 52 - k) < Shl(1, k)
    ensures Shl(1, 10) == 0x400 && Shl(1, 23) == 0x80_0000
  {
    Shl52();
    ShlCombine(1, k, 52);
    ShrBelow(m, Shl(1, k), 52 - k);
  }

  /** The position of the leading one. */
  function Log2(m: nat): (k: nat)
    requires m > 0
    ensures Shl(1, k) <= m < 2 * Shl(1, k)
  {
    if m == 1 then 0 else 1 + Log2(m / 2)
  }

  lemma Log2Below(m: nat, n: nat)
    requires 0 < m < Shl(1, n)
    ensures Log2(m) < n
  {
    if Log2(m) >= n {
      ShlMonotone(1, n, Log2(m));
    }
  }

  /** The binary64 with the given sign, exponent field and mantissa field. */
  function Pack(sign: nat, e: nat, m: nat): (bits: u64)
    requires sign < 2 && e < 2048 && m < MANTISSA
  {
    sign * SIGN + e * MANTISSA + m
  }

  lemma Unpack(sign: nat, e: nat, m: nat)
    requires sign < 2 && e < 2048 && m < MANTISSA
    ensures var bits := Pack(sign, e, m);
            bits / SIGN == sign && bits / MANTISSA % 2048 == e && bits % MANTISSA == m
  {
  }

  /** The binary64 equal to a binary16. */
  function Widen16(x: u16): (bits: u64) {
    var sign, e, m := x / 0x8000, x / 0x400 % 32, x % 0x400;
    ShiftBelow(m, 10);
    if e == 31 then Pack(sign, 2047, Shl(m, 42))
    else if e > 0 then Pack(sign, e + 1008, Shl(m, 42))
    else if m == 0 then Pack(sign, 0, 0)
    else
      Log2Below(m, 10);
      ShiftBelow(m - Shl(1, Log2(m)), Log2(m));
      Pack(sign, Log2(m) + 999, Shl(m - Shl(1, Log2(m)), 52 - Log2(m)))
  }

  /** The binary16 a binary64 is written as, if one equals it. */
  function Narrow16(bits: u64): (x: u16) {
    var sign, e, m := bits / SIGN, bits / MANTISSA % 2048, bits % MANTISSA;
    UnshiftBelow(m, 10);
    var magnitude: nat :=
      if e == 2047 then 0x7c00 + Shr(m, 42)
      else if 1008 < e < 1039 then (e - 1008) * 0x400 + Shr(m, 42)
      else if 999 <= e <= 1008 then
        UnshiftBelow(m, e - 999);
        ShlMonotone(1, e - 998, 10);
        Shl(1, e - 999) + Shr(m, 52 - (e - 999))
      else 0;
    sign * 0x8000 + magnitude
  }

  lemma Parts16(x: u16)
    ensures x == x / 0x8000 * 0x8000 + x / 0x400 % 32 * 0x400 + x % 0x400
    ensures x / 0x8000 < 2
  {
  }

  /** Every finite binary16 is found again from the binary64 equal to it. */
  lemma Narrow16Widen(x: u16)
    requires x / 0x400 % 32 != 31
    ensures Narrow16(Widen16(x)) == x && Finite(Widen16(x))
  {
    hide Shl, Shr, Log2, Pack;
    Parts16(x);
    var sign, e, m := x / 0x8000, x / 0x400 % 32, x % 0x400;
    ShiftBelow(m, 10);
    if e > 0 {
      Unpack(sign, e + 1008, Shl(m, 42));
      ShrShl(m, 42);
    } else if m == 0 {
      Unpack(sign, 0, 0);
    } else {
      var k := Log2(m);
      Log2Below(m, 10);
      ShiftBelow(m - Shl(1, k), k);
      Unpack(sign, k + 999, Shl(m - Shl(1, k), 52 - k));
      ShrShl(m - Shl(1, k), 52 - k);
    }
  }

  /** The binary64 equal to a binary32. */
  function Widen32(x: u32): (bits: u64) {
    var sign, e, m := x / 0x80000000, x / 0x800000 % 256, x % 0x800000;
    ShiftBelow(m, 23);
    if e == 255 then Pack(sign, 2047, Shl(m, 29))
    else if e > 0 then Pack(sign, e + 896, Shl(m, 29))
    else if m == 0 then Pack(sign, 0, 0)
    else
      Log2Below(m, 23);
      ShiftBelow(m - Shl(1, Log2(m)), Log2(m));
      Pack(sign, Log2(m) + 874, Shl(m - Shl(1, Log2(m)), 52 - Log2(m)))
  }

  /** The binary32 a binary64 is written as, if one equals it. */
  function Narrow32(bits: u64): (x: u32) {
    var sign, e, m := bits / SIGN, bits / MANTISSA % 2048, bits % MANTISSA;
    UnshiftBelow(m, 23);
    var magnitude: nat :=
      if e == 2047 then 0x7f800000 + Shr(m, 29)
      else if 896 < e < 1151 then (e - 896) * 0x800000 + Shr(m, 29)
      else if 874 <= e <= 896 then
        UnshiftBelow(m, e - 874);
        ShlMonotone(1, e - 873, 23);
        Shl(1, e - 874) + Shr(m, 52 - (e - 874))
      else 0;
    sign * 0x80000000 + magnitude
  }

  lemma Parts32(x: u32)
    ensures x == x / 0x80000000 * 0x80000000 + x / 0x800000 % 256 * 0x800000 + x % 0x800000
    ensures x / 0x80000000 < 2
  {
  }

  /** Every finite binary32 is found again from the binary64 equal to it. */
  lemma Narrow32Widen(x: u32)
    requires x / 0x800000 % 256 != 255
    ensures Narrow32(Widen32(x)) == x && Finite(Widen32(x))
  {
    hide Shl, Shr, Log2, Pack;
    Parts32(x);
    var sign, e, m := x / 0x80000000, x / 0x800000 % 256, x % 0x800000;
    ShiftBelow(m, 23);
    if e > 0 {
      Unpack(sign, e + 896, Shl(m, 29));
      ShrShl(m, 29);
    } else if m == 0 {
      Unpack(sign, 0, 0);
    } else {
      var k := Log2(m);
      Log2Below(m, 23);
      ShiftBelow(m - Shl(1, k), k);
      Unpack(sign, k + 874, Shl(m - Shl(1, k), 52 - k));
      ShrShl(m - Shl(1, k), 52 - k);
    }
  }
}
