/** The sections of a chunk buffer, and what patching or appending bytes does to them. */
module ChunkLayout {
  import opened Bytes
  import opened Chunk

  // ---- patching a buffer ----

  /** `bytes` with `s` written over the bytes from `at` on. */
  function Splice(bytes: seq<u8>, at: nat, s: seq<u8>): (r: seq<u8>)
    requires at + |s| <= |bytes|
    ensures |r| == |bytes|
  {
    bytes[..at] + s + bytes[at + |s|..]
  }

  /** `bytes` with the low `size` bytes of `v` written at `at`. */
  function Put(bytes: seq<u8>, at: nat, size: nat, v: nat): (r: seq<u8>)
    requires at + size <= |bytes|
    ensures |r| == |bytes|
  {
    Splice(bytes, at, LittleEndian(size, v))
  }

  lemma SpliceWithin(pre: seq<u8>, mid: seq<u8>, post: seq<u8>, at: nat, s: seq<u8>)
    requires at + |s| <= |mid|
    ensures Splice(pre + mid + post, |pre| + at, s) == pre + Splice(mid, at, s) + post
  {
    var all := pre + mid + post;
    assert all[..|pre| + at] == pre + mid[..at];
    assert all[|pre| + at + |s|..] == mid[at + |s|..] + post;
  }

  /** What lies beside a patch is unchanged. */
  lemma SpliceBeside(bytes: seq<u8>, at: nat, s: seq<u8>, lo: nat, hi: nat)
    requires at + |s| <= |bytes| && lo <= hi <= |bytes| && (hi <= at || at + |s| <= lo)
    ensures Splice(bytes, at, s)[lo..hi] == bytes[lo..hi]
  {
  }

  lemma SpliceAt(bytes: seq<u8>, at: nat, s: seq<u8>)
    requires at + |s| <= |bytes|
    ensures Splice(bytes, at, s)[at..at + |s|] == s
  {
  }

  // ---- reading what was put ----

  lemma UintOfSlice(bytes: seq<u8>, lo: nat, hi: nat, at: nat, size: nat)
    requires lo + at + size <= hi <= |bytes| && size <= 8
    ensures Uint(bytes, lo + at, size) == Uint(bytes[lo..hi], at, size)
  {
    var part, whole := bytes[lo..hi][at..at + size], bytes[lo + at..lo + at + size];
    assert |part| == |whole| == size;
    forall i | 0 <= i < size ensures part[i] == whole[i] {
      assert part[i] == bytes[lo..hi][at + i] == bytes[lo + at + i];
    }
    assert part == whole;
  }

  lemma ReadPut(bytes: seq<u8>, at: nat, size: nat, v: nat)
    requires at + size <= |bytes| && size <= 8 && v < Radix(size)
    ensures Uint(Put(bytes, at, size, v), at, size) == v
    ensures forall lo: nat, n: nat :: n <= 8 && (lo + n <= at || at + size <= lo) ==>
              Uint(Put(bytes, at, size, v), lo, n) == Uint(bytes, lo, n)
  {
    hide LittleEndian, FromLittleEndian, Radix;
    var s := LittleEndian(size, v);
    SpliceAt(bytes, at, s);
    ReadLittleEndian(size, v);
    forall lo: nat, n: nat | n <= 8 && (lo + n <= at || at + size <= lo)
      ensures Uint(Put(bytes, at, size, v), lo, n) == Uint(bytes, lo, n)
    {
      if lo + n <= |bytes| {
        SpliceBeside(bytes, at, s, lo, lo + n);
      }
    }
  }

  lemma ByteIsUint(bytes: seq<u8>, at: nat)
    requires at < |bytes|
    ensures Uint(bytes, at, 1) == bytes[at]
  {
    var s := bytes[at..at + 1];
    assert FromLittleEndian(s) == s[0] + 0x100 * FromLittleEndian([]);
  }

  lemma ZerosRead(n: nat, at: nat, size: nat)
    requires size <= 8
    ensures Uint(Zeros(n), at, size) == 0
  {
    if at + size <= n {
      ZeroValue(Zeros(n)[at..at + size]);
    }
  }

  lemma {:induction false} ZeroValue(s: seq<u8>)
    requires forall i :: 0 <= i < |s| ==> s[i] == 0
    ensures FromLittleEndian(s) == 0
  {
    if s != [] {
      ZeroValue(s[1..]);
    }
  }

  // ---- rows ----

  function Flatten(rows: seq<seq<u8>>): (r: seq<u8>) {
    if rows == [] then [] else rows[0] + Flatten(rows[1..])
  }

  predicate Wide(rows: seq<seq<u8>>, w: nat) {
    forall i :: 0 <= i < |rows| ==> |rows[i]| == w
  }

  lemma {:induction false} FlattenLength(rows: seq<seq<u8>>, w: nat)
    requires Wide(rows, w)
    ensures |Flatten(rows)| == |rows| * w
  {
    if rows != [] {
      FlattenLength(rows[1..], w);
    }
  }

  lemma {:induction false} FlattenSplit(rows: seq<seq<u8>>, k: nat)
    requires k < |rows|
    ensures Flatten(rows) == Flatten(rows[..k]) + rows[k] + Flatten(rows[k + 1..])
  {
    if k == 0 {
      assert rows[..0] == [];
    } else {
      FlattenSplit(rows[1..], k - 1);
      assert rows[1..][..k - 1] == rows[..k][1..];
      assert rows[1..][k..] == rows[k + 1..];
    }
  }

  /** The i-th of `rows` starts after i rows. */
  lemma FlattenAt(rows: seq<seq<u8>>, w: nat, k: nat)
    requires Wide(rows, w) && k < |rows|
    ensures Flatten(rows) == Flatten(rows[..k]) + rows[k] + Flatten(rows[k + 1..])
    ensures |Flatten(rows[..k])| == k * w
  {
    FlattenSplit(rows, k);
    FlattenLength(rows[..k], w);
  }

  /** `n` blank rows, as the buffer starts out. */
  function Blank(n: nat, w: nat): (rows: seq<seq<u8>>)
    ensures |rows| == n && Wide(rows, w)
  {
    seq(n, _ => Zeros(w))
  }

  lemma {:induction false} BlankFlat(n: nat, w: nat)
    ensures Flatten(Blank(n, w)) == Zeros(n * w)
  {
    if n > 0 {
      BlankFlat(n - 1, w);
      assert Blank(n, w)[1..] == Blank(n - 1, w);
      assert n * w == w + (n - 1) * w;
      assert Zeros(w) + Zeros((n - 1) * w) == Zeros(n * w);
    }
  }

  // ---- sections ----

  /** The sections of a buffer: header, segment table, column table, parameters and
      bitmaps, payloads. */
  datatype Parts = Parts(
    header: seq<u8>,
    segments: seq<seq<u8>>,
    columns: seq<seq<u8>>,
    extras: seq<u8>,
    payloads: seq<u8>)
  {
    predicate Valid() {
      |header| == HEADER && Wide(segments, 32) && Wide(columns, 64)
    }

    function Bytes(): (bytes: seq<u8>) {
      header + Flatten(segments) + Flatten(columns) + extras + payloads
    }

    function ColumnEntry(k: nat): (p: nat) {
      HEADER + |segments| * 32 + k * 64
    }

    /** Where the tables end. */
    function TableEnd(): (p: nat) {
      HEADER + |segments| * 32 + |columns| * 64
    }

    function Start(): (p: nat) {
      TableEnd() + |extras|
    }

    lemma Length()
      requires Valid()
      ensures |Bytes()| == Start() + |payloads|
    {
      FlattenLength(segments, 32);
      FlattenLength(columns, 64);
    }

    lemma PatchHeader(at: nat, s: seq<u8>)
      requires Valid() && at + |s| <= HEADER
      ensures |Bytes()| >= HEADER
      ensures Splice(Bytes(), at, s) == this.(header := Splice(header, at, s)).Bytes()
    {
      hide Flatten, Splice;
      var post := Flatten(segments) + Flatten(columns) + extras + payloads;
      assert Bytes() == header + post;
      assert [] + header + post == header + post;
      SpliceWithin([], header, post, at, s);
      var patched := Splice(header, at, s);
      assert [] + patched + post == patched + post;
      assert this.(header := patched).Bytes() == patched + post;
    }

    lemma PatchSegment(k: nat, at: nat, s: seq<u8>)
      requires Valid() && k < |segments| && at + |s| <= 32
      ensures |Bytes()| >= TableEnd()
      ensures Splice(Bytes(), HEADER + k * 32 + at, s)
              == this.(segments := segments[k := Splice(segments[k], at, s)]).Bytes()
    {
      hide Flatten, Splice;
      Length();
      var rows := segments[k := Splice(segments[k], at, s)];
      FlattenAt(segments, 32, k);
      FlattenAt(rows, 32, k);
      assert rows[..k] == segments[..k] && rows[k + 1..] == segments[k + 1..];
      var pre := header + Flatten(segments[..k]);
      var post := Flatten(segments[k + 1..]) + Flatten(columns) + extras + payloads;
      assert Bytes() == pre + segments[k] + post;
      SpliceWithin(pre, segments[k], post, at, s);
      assert this.(segments := rows).Bytes() == pre + rows[k] + post;
    }

    lemma PatchColumn(k: nat, at: nat, s: seq<u8>)
      requires Valid() && k < |columns| && at + |s| <= 64
      ensures |Bytes()| >= TableEnd()
      ensures Splice(Bytes(), ColumnEntry(k) + at, s)
              == this.(columns := columns[k := Splice(columns[k], at, s)]).Bytes()
    {
      hide Flatten, Splice;
      Length();
      FlattenLength(segments, 32);
      var rows := columns[k := Splice(columns[k], at, s)];
      FlattenAt(columns, 64, k);
      FlattenAt(rows, 64, k);
      assert rows[..k] == columns[..k] && rows[k + 1..] == columns[k + 1..];
      var pre := header + Flatten(segments) + Flatten(columns[..k]);
      var post := Flatten(columns[k + 1..]) + extras + payloads;
      assert Bytes() == pre + columns[k] + post;
      SpliceWithin(pre, columns[k], post, at, s);
      assert this.(columns := rows).Bytes() == pre + rows[k] + post;
    }

    lemma AppendExtras(s: seq<u8>)
      requires payloads == []
      ensures Bytes() + s == this.(extras := extras + s).Bytes()
    {
    }

    lemma AppendPayload(s: seq<u8>)
      ensures Bytes() + s == this.(payloads := payloads + s).Bytes()
    {
    }

    // ---- where the sections are ----

    lemma HeaderAt()
      requires Valid()
      ensures |Bytes()| >= HEADER && Bytes()[..HEADER] == header
    {
    }

    lemma SegmentRowAt(k: nat)
      requires Valid() && k < |segments|
      ensures var p := HEADER + k * 32; p + 32 <= |Bytes()| && Bytes()[p..p + 32] == segments[k]
    {
      Length();
      FlattenAt(segments, 32, k);
      var pre := header + Flatten(segments[..k]);
      var post := Flatten(segments[k + 1..]) + Flatten(columns) + extras + payloads;
      assert Bytes() == pre + segments[k] + post;
    }

    lemma ColumnRowAt(k: nat)
      requires Valid() && k < |columns|
      ensures var p := ColumnEntry(k); p + 64 <= |Bytes()| && Bytes()[p..p + 64] == columns[k]
    {
      hide Flatten;
      Length();
      FlattenLength(segments, 32);
      FlattenAt(columns, 64, k);
      var pre := header + Flatten(segments) + Flatten(columns[..k]);
      var post := Flatten(columns[k + 1..]) + extras + payloads;
      assert Bytes() == pre + columns[k] + post;
    }

    lemma DataAt()
      requires Valid()
      ensures |Bytes()| == Start() + |payloads|
      ensures Bytes()[TableEnd()..Start()] == extras && Bytes()[Start()..] == payloads
    {
      hide Flatten;
      Length();
      FlattenLength(segments, 32);
      FlattenLength(columns, 64);
      var pre := header + Flatten(segments) + Flatten(columns);
      assert Bytes() == pre + extras + payloads;
    }
  }
}
