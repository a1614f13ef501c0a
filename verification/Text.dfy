/** Text: whitespace, lines, code fences, and byte positions in UTF-8. */
module Text {
  /** The characters with the Unicode White_Space property. */
  predicate IsSpace(c: char) {
    || '\U{0009}' <= c <= '\U{000D}' || c == ' ' || c == '\U{0085}' || c == '\U{00A0}' || c == '\U{1680}'
    || '\U{2000}' <= c <= '\U{200A}' || c == '\U{2028}' || c == '\U{2029}' || c == '\U{202F}'
    || c == '\U{205F}' || c == '\U{3000}'
  }

  predicate Blank(s: string) {
    forall i :: 0 <= i < |s| ==> IsSpace(s[i])
  }

  // ---- trimming ----

  function TrimStart(s: string): (r: string)
    ensures |r| <= |s|
  {
    if s != [] && IsSpace(s[0]) then TrimStart(s[1..]) else s
  }

  /** What is left starts with the first character that is not whitespace. */
  lemma {:induction false} TrimStartShape(s: string)
    ensures var r := TrimStart(s);
            && r == s[|s| - |r|..] && Blank(s[..|s| - |r|]) && (r == [] || !IsSpace(r[0]))
  {
    hide IsSpace;
    if s != [] && IsSpace(s[0]) {
      TrimStartShape(s[1..]);
      var r := TrimStart(s);
      assert s[..|s| - |r|] == [s[0]] + s[1..][..|s| - 1 - |r|];
    }
  }

  function TrimEnd(s: string): (r: string)
    ensures |r| <= |s|
  {
    if s != [] && IsSpace(s[|s| - 1]) then TrimEnd(s[..|s| - 1]) else s
  }

  lemma {:induction false} TrimEndShape(s: string)
    ensures var r := TrimEnd(s);
            && r == s[..|r|] && Blank(s[|r|..]) && (r == [] || !IsSpace(r[|r| - 1]))
  {
    hide IsSpace;
    if s != [] && IsSpace(s[|s| - 1]) {
      TrimEndShape(s[..|s| - 1]);
      var r := TrimEnd(s);
      assert s[|r|..] == s[..|s| - 1][|r|..] + [s[|s| - 1]];
    }
  }

  function Trim(s: string): (r: string) {
    TrimEnd(TrimStart(s))
  }

  /** The characters that are not whitespace, in order. */
  function Solid(s: string): (r: string) {
    if s == [] then [] else SolidOne(s[0]) + Solid(s[1..])
  }

  /** What one character adds. */
  function SolidOne(c: char): (r: string) {
    if IsSpace(c) then [] else [c]
  }

  lemma Regroup(a: string, b: string, c: string)
    ensures (a + b) + c == a + (b + c)
  {
  }

  lemma {:induction false} SolidJoin(a: string, b: string)
    ensures Solid(a + b) == Solid(a) + Solid(b)
  {
    hide SolidOne;
    if a == [] {
      assert a + b == b;
    } else {
      SolidJoin(a[1..], b);
      assert (a + b)[0] == a[0] && (a + b)[1..] == a[1..] + b;
      Regroup(SolidOne(a[0]), Solid(a[1..]), Solid(b));
    }
  }

  lemma {:induction false} SolidBlank(s: string)
    ensures Blank(s) <==> Solid(s) == []
  {
    if s != [] {
      SolidBlank(s[1..]);
      assert s == [s[0]] + s[1..];
    }
  }

  lemma TrimStartSolid(s: string)
    ensures Solid(TrimStart(s)) == Solid(s)
  {
    hide TrimStart, IsSpace, Solid;
    TrimStartShape(s);
    var r := TrimStart(s);
    var k := |s| - |r|;
    assert s == s[..k] + r;
    SolidJoin(s[..k], r);
    SolidBlank(s[..k]);
  }

  lemma TrimEndSolid(s: string)
    ensures Solid(TrimEnd(s)) == Solid(s)
  {
    hide TrimEnd, IsSpace, Solid;
    TrimEndShape(s);
    var r := TrimEnd(s);
    assert s == r + s[|r|..];
    SolidJoin(r, s[|r|..]);
    SolidBlank(s[|r|..]);
  }

  /** Trimming keeps every other character. */
  lemma TrimSolid(s: string)
    ensures Solid(Trim(s)) == Solid(s) && |Trim(s)| <= |s|
    ensures Trim(s) == [] <==> Blank(s)
  {
    hide TrimStart, TrimEnd, IsSpace;
    TrimStartSolid(s);
    TrimEndSolid(TrimStart(s));
    TrimEndShape(TrimStart(s));
    SolidBlank(s);
    SolidBlank(Trim(s));
  }

  lemma TrimStartSpace(w: string, s: string)
    requires Blank(w)
    ensures TrimStart(w + s) == TrimStart(s)
    decreases |w|
  {
    if w == [] {
      assert w + s == s;
    } else {
      assert (w + s)[1..] == w[1..] + s;
      TrimStartSpace(w[1..], s);
    }
  }

  // ---- UTF-8 ----

  function Width(c: char): (w: nat)
    ensures 1 <= w <= 4
  {
    if c < '\U{0080}' then 1 else if c < '\U{0800}' then 2 else if c < '\U{10000}' then 3 else 4
  }

  function ByteLength(s: string): (n: nat) {
    if s == [] then 0 else ByteLength(s[..|s| - 1]) + Width(s[|s| - 1])
  }

  lemma {:induction false} ByteLengthJoin(a: string, b: string)
    ensures ByteLength(a + b) == ByteLength(a) + ByteLength(b)
    decreases |b|
  {
    if b == [] {
      assert a + b == a;
    } else {
      ByteLengthJoin(a, b[..|b| - 1]);
      assert (a + b)[..|a + b| - 1] == a + b[..|b| - 1];
    }
  }

  /** Different character positions are different byte positions. */
  lemma {:induction false} ByteLengthGrows(s: string, i: nat, j: nat)
    requires i < j <= |s|
    ensures ByteLength(s[..i]) < ByteLength(s[..j])
    decreases j
  {
    assert s[..j][..j - 1] == s[..j - 1];
    if i < j - 1 {
      ByteLengthGrows(s, i, j - 1);
    }
  }

  /** The characters before a byte position, which must lie between two characters. */
  method CharsBefore(s: string, byteIndex: nat, ghost k: nat) returns (n: nat)
    requires k <= |s| && ByteLength(s[..k]) == byteIndex
    ensures n == k
  {
    n := 0;
    var at := 0;
    while at < byteIndex
      invariant n <= k && at == ByteLength(s[..n])
      decreases k - n
    {
      if n == k {
        assert false;
      }
      ByteLengthNext(s, n);
      at := at + Width(s[n]);
      n := n + 1;
    }
    if n < k {
      ByteLengthGrows(s, n, k);
    }
  }

  lemma ByteLengthNext(s: string, n: nat)
    requires n < |s|
    ensures ByteLength(s[..n + 1]) == ByteLength(s[..n]) + Width(s[n])
  {
    assert s[..n + 1][..n] == s[..n];
  }

  // ---- lines and code fences ----

  /** The length of the first line, its newline included. */
  function LineLength(s: string): (n: nat)
    ensures n <= |s| && (s != [] ==> n > 0)
  {
    if s == [] then 0 else if s[0] == '\n' then 1 else 1 + LineLength(s[1..])
  }

  /** The first newline ends the first line. */
  lemma {:induction false} LineShape(s: string)
    ensures forall i :: 0 <= i < LineLength(s) - 1 ==> s[i] != '\n'
    ensures LineLength(s) < |s| ==> s[LineLength(s) - 1] == '\n'
  {
    if s != [] && s[0] != '\n' {
      LineShape(s[1..]);
    }
  }

  predicate StartsFence(s: string) {
    |s| >= 3 && (s[..3] == "```" || s[..3] == "~~~")
  }

  predicate FenceLine(line: string) {
    StartsFence(Trim(line))
  }

  /** Whether the lines of a text hold an odd number of fence lines. */
  predicate OddFences(s: string)
    decreases |s|
  {
    if s == [] then false
    else FenceLine(s[..LineLength(s)]) != OddFences(s[LineLength(s)..])
  }

  /** The text is empty or ends its last line. */
  predicate EndsLine(s: string) {
    s == [] || s[|s| - 1] == '\n'
  }

  lemma FirstLine(a: string, b: string)
    requires a != [] && EndsLine(a)
    ensures LineLength(a + b) == LineLength(a) && EndsLine(a[LineLength(a)..])
    decreases |a|
  {
    LineShape(a);
    assert (a + b)[0] == a[0];
    if a[0] != '\n' {
      assert (a + b)[1..] == a[1..] + b;
      FirstLine(a[1..], b);
      assert a[LineLength(a)..] == a[1..][LineLength(a[1..])..];
    }
  }

  /** The fences of whole lines add up. */
  lemma {:induction false} FencesJoin(a: string, b: string)
    requires EndsLine(a)
    ensures OddFences(a + b) == (OddFences(a) != OddFences(b))
    decreases |a|
  {
    if a == [] {
      assert a + b == b;
    } else {
      FirstLine(a, b);
      var n := LineLength(a);
      assert (a + b)[..n] == a[..n] && (a + b)[n..] == a[n..] + b;
      FencesJoin(a[n..], b);
    }
  }

  lemma SpaceIsNoFence(c: char)
    requires IsSpace(c)
    ensures !FenceLine([c])
  {
    hide IsSpace;
    TrimSolid([c]);
  }

  /** A whitespace character before a line. */
  lemma SpaceBeforeLine(c: char, line: string)
    requires IsSpace(c)
    ensures FenceLine([c] + line) == FenceLine(line)
  {
    hide IsSpace, TrimEnd;
    assert ([c] + line)[1..] == line;
  }

  lemma LineBehindSpace(c: char, s: string)
    requires c != '\n' && s != []
    ensures LineLength([c] + s) == 1 + LineLength(s)
  {
    assert ([c] + s)[1..] == s;
  }

  /** The fences of a text by its first line. */
  lemma FencesByLine(s: string, n: nat)
    requires s != [] && n == LineLength(s)
    ensures OddFences(s) == (FenceLine(s[..n]) != OddFences(s[n..]))
  {
    hide FenceLine;
  }

  lemma SpaceFirst(c: char, s: string)
    requires IsSpace(c)
    ensures OddFences([c] + s) == OddFences(s)
  {
    hide OddFences, FenceLine, IsSpace, LineLength;
    var all := [c] + s;
    var n := LineLength(all);
    FencesByLine(all, n);
    if c == '\n' {
      assert n == 1 by {
        NewlineFirst(s);
      }
      assert all[..1] == [c] && all[1..] == s;
      SpaceIsNoFence(c);
    } else if s == [] {
      OneCharacter(c);
      assert all[..1] == [c] && all[1..] == s;
      SpaceIsNoFence(c);
    } else {
      LineBehindSpace(c, s);
      FencesByLine(s, n - 1);
      SpaceBeforeLine(c, s[..n - 1]);
      assert all[..n] == [c] + s[..n - 1] && all[n..] == s[n - 1..];
    }
  }

  lemma NewlineFirst(s: string)
    ensures LineLength("\n" + s) == 1
  {
  }

  lemma OneCharacter(c: char)
    ensures LineLength([c]) == 1
  {
    assert [c][1..] == [];
  }

  /** Whitespace before a text changes none of its fences. */
  lemma {:induction false} SpaceHasNoFence(w: string, s: string)
    requires Blank(w)
    ensures OddFences(w + s) == OddFences(s)
    decreases |w|
  {
    hide OddFences, IsSpace;
    if w == [] {
      assert w + s == s;
    } else {
      SpaceHasNoFence(w[1..], s);
      SpaceFirst(w[0], w[1..] + s);
      assert w + s == [w[0]] + (w[1..] + s);
    }
  }

  // ---- a text cut inside a line ----

  predicate NoNewline(s: string) {
    forall i :: 0 <= i < |s| ==> s[i] != '\n'
  }

  /** What follows the last newline. */
  function LastLine(s: string): (line: string) {
    if EndsLine(s) then [] else LastLine(s[..|s| - 1]) + [s[|s| - 1]]
  }

  lemma {:induction false} LastLineShape(s: string)
    ensures |LastLine(s)| <= |s| && LastLine(s) == s[|s| - |LastLine(s)|..]
    ensures NoNewline(LastLine(s)) && EndsLine(s[..|s| - |LastLine(s)|])
    decreases |s|
  {
    if !EndsLine(s) {
      var front := s[..|s| - 1];
      LastLineShape(front);
      assert s == front + [s[|s| - 1]];
      assert front[..|front| - |LastLine(front)|] == s[..|s| - |LastLine(s)|];
    }
  }

  /** Joining two texts changes whether the line they meet in counts as fences: the joined
      line is one although not exactly one of its parts is, or the other way round. */
  predicate Straddles(a: string, b: string) {
    var first := b[..LineLength(b)];
    FenceLine(LastLine(a) + first) != (FenceLine(LastLine(a)) != FenceLine(first))
  }

  lemma NoStraddle(a: string, b: string)
    requires EndsLine(a)
    ensures !Straddles(a, b)
  {
    hide FenceLine;
    NoLineNoFence();
    assert [] + b[..LineLength(b)] == b[..LineLength(b)];
  }

  lemma NoLineNoFence()
    ensures !FenceLine([])
  {
  }

  /** A first line without its newline joins the line behind it. */
  lemma {:induction false} LineJoins(q: string, b: string)
    requires NoNewline(q)
    ensures LineLength(q + b) == |q| + LineLength(b)
  {
    if q == [] {
      assert q + b == b;
    } else {
      assert (q + b)[1..] == q[1..] + b;
      LineJoins(q[1..], b);
    }
  }

  lemma FencesOfLine(q: string)
    requires NoNewline(q)
    ensures OddFences(q) == FenceLine(q)
  {
    hide FenceLine;
    NoLineNoFence();
    LineJoins(q, []);
    assert q + [] == q && q[..|q|] == q;
    if q != [] {
      FencesByLine(q, |q|);
    }
  }

  /** The fences of any two texts add up except for the line in which they meet. */
  lemma FencesMeet(a: string, b: string)
    ensures OddFences(a + b) == ((OddFences(a) != OddFences(b)) != Straddles(a, b))
  {
    hide OddFences, FenceLine, LastLine, LineLength, EndsLine;
    LastLineShape(a);
    var q := LastLine(a);
    var p := a[..|a| - |q|];
    assert a == p + q && a + b == p + (q + b);
    FencesJoin(p, q);
    FencesJoin(p, q + b);
    FencesOfLine(q);
    LineJoins(q, b);
    FencesFirst(q + b);
    FencesFirst(b);
    var n := LineLength(b);
    assert (q + b)[..|q| + n] == q + b[..n] && (q + b)[|q| + n..] == b[n..];
  }

  lemma FencesFirst(s: string)
    ensures OddFences(s) == (FenceLine(s[..LineLength(s)]) != OddFences(s[LineLength(s)..]))
  {
    hide FenceLine;
    NoLineNoFence();
  }
}
