/** Machine integers, byte order and byte-string order shared by the ink file format. */
module Bytes {
  type u8 = x: int | 0 <= x < 0x100
  type u16 = x: int | 0 <= x < 0x1_0000
  type u32 = x: int | 0 <= x < 0x1_0000_0000
  type u64 = x: int | 0 <= x < 0x1_0000_0000_0000_0000

  const USIZE_MAX: nat := 0xFFFF_FFFF_FFFF_FFFF

  /** The number of values that fit in `n` bytes. */
  function Radix(n: nat): (r: nat)
    ensures r > 0
  {
    if n == 0 then 1 else 0x100 * Radix(n - 1)
  }

  lemma RadixValues()
    ensures Radix(1) == 0x100 && Radix(2) == 0x1_0000 && Radix(4) == 0x1_0000_0000
    ensures Radix(8) == 0x1_0000_0000_0000_0000
  {
    assert Radix(0) == 1;
    assert Radix(1) == 0x100;
    assert Radix(2) == 0x1_0000;
    assert Radix(3) == 0x100_0000;
    assert Radix(4) == 0x1_0000_0000;
    assert Radix(5) == 0x100_0000_0000;
    assert Radix(6) == 0x1_0000_0000_0000;
    assert Radix(7) == 0x100_0000_0000_0000;
  }

  function Zeros(n: nat): (s: seq<u8>)
    ensures |s| == n && forall i :: 0 <= i < n ==> s[i] == 0
  {
    seq(n, _ => 0)
  }

  /** Opaque identifiers, of which zero is invalid, and content hashes. */
  type Id = s: seq<u8> | |s| == 16 witness Zeros(16)
  type Hash = s: seq<u8> | |s| == 32 witness Zeros(32)

  const ZERO: Id := Zeros(16)

  lemma Assoc<T>(a: seq<T>, b: seq<T>, c: seq<T>)
    ensures (a + b) + c == a + (b + c)
  {
  }

  lemma SplitAt<T>(a: seq<T>, b: seq<T>)
    ensures (a + b)[..|a|] == a && (a + b)[|a|..] == b
  {
  }

  lemma DigitsApart(high: nat, low: u8)
    ensures (0x100 * high + low) / 0x100 == high && (0x100 * high + low) % 0x100 == low
  {
  }

  lemma HeadTail<T>(s: seq<T>)
    requires s != []
    ensures s == [s[0]] + s[1..]
  {
  }

  lemma FrontLast<T>(s: seq<T>)
    requires s != []
    ensures s == s[..|s| - 1] + [s[|s| - 1]]
  {
  }

  // ---- big endian ----

  function BigEndian(n: nat, v: nat): (s: seq<u8>)
    ensures |s| == n
  {
    if n == 0 then [] else BigEndian(n - 1, v / 0x100) + [v % 0x100]
  }

  function FromBigEndian(s: seq<u8>): (v: nat)
  {
    if s == [] then 0 else 0x100 * FromBigEndian(s[..|s| - 1]) + s[|s| - 1]
  }

  lemma {:induction false} FromBigEndianBound(s: seq<u8>)
    ensures FromBigEndian(s) < Radix(|s|)
  {
    if s != [] {
      FromBigEndianBound(s[..|s| - 1]);
    }
  }

  lemma {:induction false} ReadBigEndian(n: nat, v: nat)
    requires v < Radix(n)
    ensures FromBigEndian(BigEndian(n, v)) == v
  {
    if n > 0 {
      ReadBigEndian(n - 1, v / 0x100);
      assert BigEndian(n, v)[..n - 1] == BigEndian(n - 1, v / 0x100);
    }
  }

  lemma {:induction false} WriteBigEndian(s: seq<u8>)
    ensures BigEndian(|s|, FromBigEndian(s)) == s
  {
    if s != [] {
      WriteBigEndian(s[..|s| - 1]);
      DigitsApart(FromBigEndian(s[..|s| - 1]), s[|s| - 1]);
      FrontLast(s);
    }
  }

  // ---- little endian ----

  function LittleEndian(n: nat, v: nat): (s: seq<u8>)
    ensures |s| == n
  {
    if n == 0 then [] else [v % 0x100] + LittleEndian(n - 1, v / 0x100)
  }

  function FromLittleEndian(s: seq<u8>): (v: nat)
  {
    if s == [] then 0 else s[0] + 0x100 * FromLittleEndian(s[1..])
  }

  lemma {:induction false} FromLittleEndianBound(s: seq<u8>)
    ensures FromLittleEndian(s) < Radix(|s|)
  {
    if s != [] {
      FromLittleEndianBound(s[1..]);
    }
  }

  lemma {:induction false} ReadLittleEndian(n: nat, v: nat)
    requires v < Radix(n)
    ensures FromLittleEndian(LittleEndian(n, v)) == v
  {
    if n > 0 {
      ReadLittleEndian(n - 1, v / 0x100);
      assert LittleEndian(n, v)[1..] == LittleEndian(n - 1, v / 0x100);
    }
  }

  lemma {:induction false} WriteLittleEndian(s: seq<u8>)
    ensures LittleEndian(|s|, FromLittleEndian(s)) == s
  {
    if s != [] {
      WriteLittleEndian(s[1..]);
      DigitsApart(FromLittleEndian(s[1..]), s[0]);
      HeadTail(s);
    }
  }

  // ---- byte-string order ----

  /** The order of byte vectors: the first difference decides, a proper prefix comes first. */
  predicate Less(a: seq<u8>, b: seq<u8>) {
    if b == [] then false
    else if a == [] then true
    else if a[0] != b[0] then a[0] < b[0]
    else Less(a[1..], b[1..])
  }

  lemma {:induction false} LessIsTotal(a: seq<u8>, b: seq<u8>)
    ensures a == b || Less(a, b) || Less(b, a)
    ensures !(Less(a, b) && Less(b, a)) && !Less(a, a)
  {
    if a != [] && b != [] {
      LessIsTotal(a[1..], b[1..]);
      LessIsTotal(a[1..], a[1..]);
      assert a == [a[0]] + a[1..] && b == [b[0]] + b[1..];
    } else if a != [] {
      LessIsTotal(a[1..], a[1..]);
    }
  }

  lemma {:induction false} LessIsTransitive(a: seq<u8>, b: seq<u8>, c: seq<u8>)
    requires Less(a, b) && Less(b, c)
    ensures Less(a, c)
  {
    if a != [] && a[0] == b[0] && b[0] == c[0] {
      LessIsTransitive(a[1..], b[1..], c[1..]);
    }
  }
}
