/** Splitting a body into chunks, and capping what is sent to a provider. */
module Splitting {
  import opened Results
  import opened Text
  import opened Chunking

  // ---- one cut ----

  /** What is left behind a position, without leading whitespace. */
  function Rest(t: string, at: nat): (s: string)
    requires at <= |t|
  {
    TrimStart(t[at..])
  }

  /** The boundaries a cut is chosen from. */
  ghost predicate Natural(s: string, bs: seq<Boundary>, max: nat, inFence: bool) {
    AllMark(s, bs, max, inFence) && KindsFit(s, bs, inFence) && Increasing(bs) && Complete(s, bs, max)
  }

  /** The rest is cut after n characters: at the chosen boundary, whose fence flag is
      carried on, or hard at the limit if none is chosen. */
  ghost predicate CutAt(s: string, l: Limits, inFence: bool, n: nat, after: bool) {
    exists bs, r :: Natural(s, bs, l.max, inFence) && Chosen(l, bs, r) && Cuts(l, inFence, r, n, after)
  }

  predicate Cuts(l: Limits, inFence: bool, r: Option<Boundary>, n: nat, after: bool) {
    if r.Some? then n == r.value.charIndex && after == r.value.inFenceAfter
    else n == l.max && after == inFence
  }

  /** One step of a split: from position `at`, a chunk and the next position. */
  ghost predicate Piece(t: string, l: Limits, at: nat, inFence: bool, chunk: string, next: nat, after: bool) {
    && at <= |t|
    && var s := Rest(t, at);
       && |s| > l.max
       && next <= |t| && next + |s| >= |t|
       && var n := next + |s| - |t|;
          n <= |s| && CutAt(s, l, inFence, n, after) && chunk == Trim(s[..n])
  }

  /** A split: cut positions, the fence flag carried at each, and the chunks. */
  ghost predicate Split(t: string, l: Limits, cuts: seq<nat>, fences: seq<bool>, chunks: seq<string>) {
    && |cuts| == |fences| == |chunks| && |chunks| > 0
    && cuts[0] == 0 && !fences[0]
    && (forall i :: 0 <= i < |chunks| - 1 ==> Piece(t, l, cuts[i], fences[i], chunks[i], cuts[i + 1], fences[i + 1]))
    && var last := |chunks| - 1;
       cuts[last] <= |t| && |Rest(t, cuts[last])| <= l.max && chunks[last] == Trim(Rest(t, cuts[last]))
  }

  // ---- the loop ----

  /** The part of a split done so far. */
  ghost predicate Begun(t: string, l: Limits, cuts: seq<nat>, fences: seq<bool>, chunks: seq<string>) {
    && |cuts| == |fences| == |chunks| + 1 && cuts[0] == 0 && !fences[0]
    && forall i :: 0 <= i < |chunks| ==> Piece(t, l, cuts[i], fences[i], chunks[i], cuts[i + 1], fences[i + 1])
  }

  lemma BegunGrows(t: string, l: Limits, cuts: seq<nat>, fences: seq<bool>, chunks: seq<string>, chunk: string,
                   next: nat, after: bool)
    requires Begun(t, l, cuts, fences, chunks)
    requires Piece(t, l, cuts[|chunks|], fences[|chunks|], chunk, next, after)
    ensures Begun(t, l, cuts + [next], fences + [after], chunks + [chunk])
  {
    hide Piece;
    var cs, fs, ks := cuts + [next], fences + [after], chunks + [chunk];
    forall i | 0 <= i < |ks|
      ensures Piece(t, l, cs[i], fs[i], ks[i], cs[i + 1], fs[i + 1])
    {
      if i < |chunks| {
        assert cs[i] == cuts[i] && cs[i + 1] == cuts[i + 1] && fs[i] == fences[i] && fs[i + 1] == fences[i + 1];
      }
    }
  }

  /** A trimmed text that is not blank: what is left after any cut ends in its last
      character. */
  ghost predicate Trimmed(t: string) {
    t != [] && !IsSpace(t[0]) && !IsSpace(t[|t| - 1])
  }

  lemma TrimIsTrimmed(s: string)
    requires !Blank(s)
    ensures Trimmed(Trim(s))
  {
    hide TrimStart, TrimEnd, IsSpace;
    TrimSolid(s);
    var a := TrimStart(s);
    TrimStartShape(s);
    TrimEndShape(a);
    var t := Trim(s);
    assert t == a[..|t|];
    assert t[0] == a[0];
  }

  lemma {:induction false} SomethingLeft(s: string)
    requires s != [] && !IsSpace(s[|s| - 1])
    ensures TrimStart(s) != [] && !IsSpace(TrimStart(s)[|TrimStart(s)| - 1])
  {
    hide IsSpace;
    if IsSpace(s[0]) {
      SomethingLeft(s[1..]);
    }
  }

  lemma RestOfTrimmed(t: string, at: nat)
    requires Trimmed(t) && at < |t|
    ensures Trimmed(Rest(t, at)) && |Rest(t, at)| <= |t| - at
    ensures Rest(t, at) == t[|t| - |Rest(t, at)|..]
  {
    hide IsSpace, TrimStart;
    var s := t[at..];
    assert s[|s| - 1] == t[|t| - 1];
    SomethingLeft(s);
    TrimStartShape(s);
    var k := |s| - |TrimStart(s)|;
    assert s[k..] == t[at + k..];
  }

  /** Where to cut the rest, and the fence flag behind the cut. */
  method ChooseCut(remaining: string, l: Limits, inFence: bool) returns (n: nat, after: bool)
    requires 0 < l.max < |remaining|
    ensures 0 < n <= l.max && CutAt(remaining, l, inFence, n, after)
  {
    hide CutAt, Chosen, AllMark, KindsFit, Increasing, Complete, ByteLength;
    var boundaries := NaturalBoundaries(remaining, l.max, inFence);
    var selected := Select(l, boundaries);
    ChosenIsBoundary(l, boundaries, selected);
    if selected.Some? {
      BoundaryIsPlace(remaining, boundaries, l.max, inFence, selected.value);
      n := CharsBefore(remaining, selected.value.byteIndex, selected.value.charIndex);
      after := selected.value.inFenceAfter;
    } else {
      n, after := l.max, inFence;
    }
    CutFrom(remaining, l, inFence, boundaries, selected, n, after);
  }

  method SplitBody(body: string, l: Limits) returns (chunks: seq<string>, ghost cuts: seq<nat>, ghost fences: seq<bool>)
    requires 0 < l.max
    ensures Blank(body) ==> chunks == [""]
    ensures !Blank(body) ==> Split(Trim(body), l, cuts, fences, chunks)
  {
    hide Trim, TrimStart, Piece, CutAt, Begun;
    cuts, fences, chunks := [0], [false], [];
    TrimSolid(body);
    if Trim(body) == [] {
      return [""], cuts, fences;
    }
    TrimIsTrimmed(body);
    ghost var t := Trim(body);
    var remaining := Trim(body);
    var inFence := false;
    RestStart(t);
    NothingBegun(t, l);
    while |remaining| > l.max
      invariant |cuts| == |fences| == |chunks| + 1 && Begun(t, l, cuts, fences, chunks)
      invariant cuts[|chunks|] < |t| && remaining == Rest(t, cuts[|chunks|]) && inFence == fences[|chunks|]
      decreases |remaining|
    {
      ghost var at, before := cuts[|chunks|], inFence;
      RestOfTrimmed(t, at);
      var n;
      n, inFence := ChooseCut(remaining, l, inFence);
      ghost var next := |t| - |remaining| + n;
      var chunk := Trim(remaining[..n]);
      assert Piece(t, l, at, before, chunk, next, inFence) by {
        PieceFrom(t, l, at, before, n, next, inFence);
      }
      BegunGrows(t, l, cuts, fences, chunks, chunk, next, inFence);
      RestOfRest(t, at, n, next);
      RestOfTrimmed(t, next);
      chunks, cuts, fences := chunks + [chunk], cuts + [next], fences + [inFence];
      remaining := TrimStart(remaining[n..]);
    }
    chunks := chunks + [Trim(remaining)];
    assert Split(t, l, cuts, fences, chunks) by {
      SplitDone(t, l, cuts, fences, chunks);
    }
  }

  lemma NothingBegun(t: string, l: Limits)
    ensures Begun(t, l, [0], [false], [])
  {
  }

  lemma SplitDone(t: string, l: Limits, cuts: seq<nat>, fences: seq<bool>, chunks: seq<string>)
    requires |chunks| > 0 && |cuts| == |fences| == |chunks| && Begun(t, l, cuts, fences, chunks[..|chunks| - 1])
    requires var last := |chunks| - 1;
             cuts[last] <= |t| && |Rest(t, cuts[last])| <= l.max && chunks[last] == Trim(Rest(t, cuts[last]))
    ensures Split(t, l, cuts, fences, chunks)
  {
    hide Piece, Trim, Rest;
    forall i | 0 <= i < |chunks| - 1
      ensures Piece(t, l, cuts[i], fences[i], chunks[i], cuts[i + 1], fences[i + 1])
    {
      assert chunks[..|chunks| - 1][i] == chunks[i];
    }
  }

  lemma RestOfRest(t: string, at: nat, n: nat, next: nat)
    requires at <= |t| && n <= |Rest(t, at)| <= |t| && Rest(t, at) == t[|t| - |Rest(t, at)|..]
    requires next == |t| - |Rest(t, at)| + n
    ensures TrimStart(Rest(t, at)[n..]) == Rest(t, next)
  {
    hide TrimStart;
    var s := Rest(t, at);
    assert s[n..] == t[next..];
  }

  lemma RestStart(t: string)
    requires Trimmed(t)
    ensures Rest(t, 0) == t
  {
    assert t[0..] == t;
  }

  lemma BoundaryIsPlace(s: string, bs: seq<Boundary>, max: nat, inFence: bool, b: Boundary)
    requires AllMark(s, bs, max, inFence) && b in bs && b.charIndex <= max < |s|
    ensures 0 < b.charIndex < |s| && b.byteIndex == ByteLength(s[..b.charIndex])
  {
    hide OddFences, ByteLength;
  }

  lemma CutFrom(s: string, l: Limits, inFence: bool, bs: seq<Boundary>, r: Option<Boundary>, n: nat, after: bool)
    requires Natural(s, bs, l.max, inFence) && Chosen(l, bs, r) && Cuts(l, inFence, r, n, after)
    ensures CutAt(s, l, inFence, n, after)
  {
  }

  lemma PieceFrom(t: string, l: Limits, at: nat, inFence: bool, n: nat, next: nat, after: bool)
    requires at <= |t| && |Rest(t, at)| > l.max && |Rest(t, at)| <= |t| && n <= l.max
    requires next == |t| - |Rest(t, at)| + n && CutAt(Rest(t, at), l, inFence, n, after)
    ensures Piece(t, l, at, inFence, Trim(Rest(t, at)[..n]), next, after)
  {
    hide Trim, CutAt;
  }
}
