/** Deterministic chunking of text for embedding. */
module Chunking {
  import opened Results
  import opened Text

  const SINGLE_VECTOR_MAX: nat := 2_000
  const BODY_MIN: nat := 1_200
  const BODY_TARGET: nat := 1_400
  const BODY_MAX: nat := 1_600
  const FALLBACK_MIN: nat := 64
  const PROVIDER_MAX: nat := 8_000
  const MARKER: string := "\n[tangleaf: input truncated]"

  datatype Kind = BlankLine | StructuredLine | Line

  datatype Boundary = Boundary(byteIndex: nat, charIndex: nat, kind: Kind, inFenceAfter: bool)

  // ---- boundaries ----

  /** A boundary stands right behind a newline of the text; its byte and character positions
      are the same place; and its flag is the parity of the fences before it. */
  ghost predicate Marks(s: string, b: Boundary, inFence: bool) {
    && 0 < b.charIndex <= |s| && b.byteIndex == ByteLength(s[..b.charIndex])
    && (b.charIndex < |s| ==> s[b.charIndex - 1] == '\n')
    && b.inFenceAfter == (inFence != OddFences(s[..b.charIndex]))
  }

  function CountBars(s: string): (n: nat) {
    if s == [] then 0 else CountBars(s[1..]) + if s[0] == '|' then 1 else 0
  }

  predicate LooksLikeTableRow(line: string) {
    CountBars(line) >= 2
  }

  /** The kind of the boundary behind a line. */
  function KindOf(line: string, inFence: bool): (kind: Kind) {
    var trimmed := Trim(line);
    if inFence || StartsFence(trimmed) || LooksLikeTableRow(trimmed) then StructuredLine
    else if trimmed == [] then BlankLine
    else Line
  }

  /** Every line that ends within the limit has its boundary. */
  ghost predicate Complete(s: string, bs: seq<Boundary>, limit: nat) {
    forall p :: 0 <= p < |s| && p < limit && s[p] == '\n' ==> HasBoundary(bs, p + 1)
  }

  predicate HasBoundary(bs: seq<Boundary>, k: nat) {
    exists b <- bs :: b.charIndex == k
  }

  ghost predicate Increasing(bs: seq<Boundary>) {
    forall i, j :: 0 <= i < j < |bs| ==> bs[i].charIndex < bs[j].charIndex
  }

  /** The line that ends at a boundary. */
  ghost predicate KindFits(s: string, b: Boundary, from: nat, inFence: bool) {
    && from < b.charIndex <= |s| && b.charIndex - from == LineLength(s[from..])
    && b.kind == KindOf(s[from..b.charIndex], inFence != OddFences(s[..from]))
  }

  lemma ParityNext(s: string, at: nat, n: nat)
    requires at <= |s| && EndsLine(s[..at]) && n == LineLength(s[at..])
    ensures OddFences(s[..at + n]) == (OddFences(s[..at]) != FenceLine(s[at..at + n]))
  {
    hide OddFences, FenceLine, LineLength;
    var before, line := s[..at], s[at..at + n];
    assert line == s[at..][..n];
    OneLine(line, s[at..], n);
    FencesJoin(before, line);
    assert s[..at + n] == before + line;
  }

  lemma OneLine(line: string, s: string, n: nat)
    requires n == LineLength(s) && line == s[..n]
    ensures OddFences(line) == FenceLine(line)
  {
    if n > 0 {
      LineOfLine(s);
      assert line[n..] == [] && line[..n] == line;
    } else {
      assert !FenceLine([]);
    }
  }

  lemma LineOfLine(s: string)
    ensures LineLength(s[..LineLength(s)]) == LineLength(s)
  {
    if s != [] && s[0] != '\n' {
      LineOfLine(s[1..]);
      assert s[..LineLength(s)][1..] == s[1..][..LineLength(s[1..])];
    }
  }

  ghost predicate AllMark(s: string, bs: seq<Boundary>, limit: nat, inFence: bool) {
    forall i :: 0 <= i < |bs| ==> Marks(s, bs[i], inFence) && bs[i].charIndex <= limit
  }

  function Before(bs: seq<Boundary>, i: nat): (at: nat)
    requires i <= |bs|
  {
    if i == 0 then 0 else bs[i - 1].charIndex
  }

  ghost predicate KindsFit(s: string, bs: seq<Boundary>, inFence: bool) {
    forall i :: 0 <= i < |bs| ==> KindFits(s, bs[i], Before(bs, i), inFence)
  }

  /** What the loop over the lines has found when it stands at a character. */
  ghost predicate Scanned(s: string, bs: seq<Boundary>, inFence: bool, limit: nat, at: nat) {
    && at <= |s| && at <= limit && EndsOrAll(s, at)
    && at == Before(bs, |bs|)
    && AllMark(s, bs, limit, inFence) && KindsFit(s, bs, inFence) && Increasing(bs) && Complete(s[..at], bs, limit)
  }

  lemma KindsGrow(s: string, bs: seq<Boundary>, inFence: bool, b: Boundary)
    requires KindsFit(s, bs, inFence) && KindFits(s, b, Before(bs, |bs|), inFence)
    ensures KindsFit(s, bs + [b], inFence)
  {
    hide KindFits;
    var more := bs + [b];
    forall i | 0 <= i < |more|
      ensures KindFits(s, more[i], Before(more, i), inFence)
    {
      if i < |bs| {
        assert more[i] == bs[i] && Before(more, i) == Before(bs, i);
      }
    }
  }

  lemma IncreasingGrows(bs: seq<Boundary>, b: Boundary)
    requires Increasing(bs) && Before(bs, |bs|) < b.charIndex
    ensures Increasing(bs + [b])
  {
    var more := bs + [b];
    forall i, j | 0 <= i < j < |more|
      ensures more[i].charIndex < more[j].charIndex
    {
      if j == |bs| && i < |bs| - 1 {
        assert bs[i].charIndex < bs[|bs| - 1].charIndex;
      }
    }
  }

  lemma LineMarks(s: string, inFence: bool, at: nat, b: Boundary)
    requires at < |s| && b.charIndex == at + LineLength(s[at..])
    requires b.byteIndex == ByteLength(s[..b.charIndex])
    requires b.inFenceAfter == (inFence != OddFences(s[..b.charIndex]))
    ensures Marks(s, b, inFence)
  {
    hide OddFences, ByteLength;
    LineShape(s[at..]);
    if b.charIndex < |s| {
      assert s[at..][LineLength(s[at..]) - 1] == '\n';
    }
  }

  /** One more line. */
  lemma ScanLine(s: string, bs: seq<Boundary>, inFence: bool, limit: nat, at: nat, b: Boundary)
    requires Scanned(s, bs, inFence, limit, at) && at < |s|
    requires b.charIndex == at + LineLength(s[at..]) <= limit && b.byteIndex == ByteLength(s[..b.charIndex])
    requires b.kind == KindOf(s[at..b.charIndex], inFence != OddFences(s[..at]))
    requires b.inFenceAfter == (inFence != OddFences(s[..b.charIndex]))
    ensures Scanned(s, bs + [b], inFence, limit, b.charIndex)
  {
    hide LineLength, OddFences, ByteLength, KindOf, Complete, KindsFit, Increasing, FenceLine;
    CompleteNext(s, bs, at, limit, b);
    LineMarks(s, inFence, at, b);
    KindsGrow(s, bs, inFence, b);
    IncreasingGrows(bs, b);
  }

  /** The loop over the lines: the boundaries up to the character limit. */
  method NaturalBoundaries(s: string, limit: nat, inFence: bool) returns (bs: seq<Boundary>)
    ensures AllMark(s, bs, limit, inFence) && KindsFit(s, bs, inFence)
    ensures Increasing(bs) && Complete(s, bs, limit)
  {
    hide LineLength, Trim, OddFences, ByteLength, KindOf, FenceLine, AllMark, KindsFit, Complete, Increasing, Before;
    bs := [];
    var byteIndex, charIndex, fence := 0, 0, inFence;
    StartOfText(s, inFence, limit);
    while charIndex < |s|
      invariant Scanned(s, bs, inFence, limit, charIndex)
      invariant byteIndex == ByteLength(s[..charIndex])
      invariant fence == (inFence != OddFences(s[..charIndex]))
      decreases |s| - charIndex
    {
      var n := LineLength(s[charIndex..]);
      var line := s[charIndex..charIndex + n];
      if charIndex + n > limit {
        NothingWithin(s, bs, charIndex, limit);
        return;
      }
      ParityNext(s, charIndex, n);
      assert s[..charIndex + n] == s[..charIndex] + line;
      ByteLengthJoin(s[..charIndex], line);
      var trimmed := Trim(line);
      var fenceLine := StartsFence(trimmed);
      FenceLineIs(line);
      var kind := KindOf(line, fence);
      if fenceLine {
        fence := !fence;
      }
      byteIndex := byteIndex + ByteLength(line);
      ScanLine(s, bs, inFence, limit, charIndex, Boundary(byteIndex, charIndex + n, kind, fence));
      charIndex := charIndex + n;
      bs := bs + [Boundary(byteIndex, charIndex, kind, fence)];
    }
    assert s[..charIndex] == s;
  }

  /** The position starts a line, or ends the text. */
  ghost predicate EndsOrAll(s: string, k: nat)
    requires k <= |s|
  {
    k < |s| ==> EndsLine(s[..k])
  }

  lemma StartOfText(s: string, inFence: bool, limit: nat)
    ensures ByteLength(s[..0]) == 0 && !OddFences(s[..0]) && Scanned(s, [], inFence, limit, 0)
  {
  }

  lemma FenceLineIs(line: string)
    ensures FenceLine(line) == StartsFence(Trim(line))
  {
  }

  lemma NoNewlineInside(s: string, at: nat, p: nat)
    requires at < |s| && at <= p < at + LineLength(s[at..]) - 1
    ensures s[p] != '\n'
  {
    LineShape(s[at..]);
    assert s[at..][p - at] == s[p];
  }

  lemma NothingWithin(s: string, bs: seq<Boundary>, at: nat, limit: nat)
    requires at < |s| && at + LineLength(s[at..]) > limit && Complete(s[..at], bs, limit)
    ensures Complete(s, bs, limit)
  {
    forall p | 0 <= p < |s| && p < limit && s[p] == '\n'
      ensures HasBoundary(bs, p + 1)
    {
      if p >= at {
        NoNewlineInside(s, at, p);
      } else {
        assert s[..at][p] == '\n';
      }
    }
  }

  lemma CompleteNext(s: string, bs: seq<Boundary>, at: nat, limit: nat, b: Boundary)
    requires at < |s| && b.charIndex == at + LineLength(s[at..]) && Complete(s[..at], bs, limit)
    ensures Complete(s[..b.charIndex], bs + [b], limit)
  {
    var more := bs + [b];
    forall p | 0 <= p < b.charIndex && p < limit && s[..b.charIndex][p] == '\n'
      ensures HasBoundary(more, p + 1)
    {
      if p < at {
        assert s[..at][p] == '\n';
        var x :| x in bs && x.charIndex == p + 1;
        assert x in more;
      } else {
        if p + 1 < b.charIndex {
          NoNewlineInside(s, at, p);
        }
        assert b in more;
      }
    }
  }

  // ---- choosing a boundary ----

  datatype Limits = Limits(min: nat, target: nat, max: nat) {
    predicate Window(b: Boundary) {
      min <= b.charIndex <= max
    }

    function Distance(b: Boundary): (d: nat) {
      if b.charIndex <= target then target - b.charIndex else b.charIndex - target
    }

    predicate Candidate(b: Boundary, kind: Kind) {
      b.kind == kind && Window(b)
    }

    predicate Fallback(b: Boundary) {
      FALLBACK_MIN <= b.charIndex <= max
    }
  }

  predicate AnyOfKind(l: Limits, bs: seq<Boundary>, kind: Kind) {
    exists b <- bs :: l.Candidate(b, kind)
  }

  /** The first of the boundaries of a kind nearest to the target. */
  predicate Nearest(l: Limits, bs: seq<Boundary>, kind: Kind, i: nat) {
    && i < |bs| && l.Candidate(bs[i], kind)
    && forall j :: 0 <= j < |bs| && l.Candidate(bs[j], kind) ==>
         l.Distance(bs[i]) <= l.Distance(bs[j]) && (j < i ==> l.Distance(bs[i]) < l.Distance(bs[j]))
  }

  predicate Furthest(l: Limits, bs: seq<Boundary>, i: nat) {
    && i < |bs| && l.Fallback(bs[i])
    && forall j :: 0 <= j < |bs| && l.Fallback(bs[j]) ==> bs[j].charIndex <= bs[i].charIndex
  }

  predicate AnyFallback(l: Limits, bs: seq<Boundary>) {
    exists b <- bs :: l.Fallback(b)
  }

  /** The boundary to cut at: within the window the best kind decides and then the distance
      to the target; without one, the furthest that is not too near; else none. */
  ghost predicate Chosen(l: Limits, bs: seq<Boundary>, r: Option<Boundary>) {
    if AnyOfKind(l, bs, BlankLine) then r.Some? && IsNearest(l, bs, BlankLine, r.value)
    else if AnyOfKind(l, bs, StructuredLine) then r.Some? && IsNearest(l, bs, StructuredLine, r.value)
    else if AnyOfKind(l, bs, Line) then r.Some? && IsNearest(l, bs, Line, r.value)
    else if AnyFallback(l, bs) then r.Some? && IsFurthest(l, bs, r.value)
    else r.None?
  }

  ghost predicate IsNearest(l: Limits, bs: seq<Boundary>, kind: Kind, b: Boundary) {
    exists i: nat :: Nearest(l, bs, kind, i) && bs[i] == b
  }

  ghost predicate IsFurthest(l: Limits, bs: seq<Boundary>, b: Boundary) {
    exists i: nat :: Furthest(l, bs, i) && bs[i] == b
  }

  method SelectKind(l: Limits, bs: seq<Boundary>, kind: Kind) returns (r: Option<nat>)
    ensures r.Some? <==> AnyOfKind(l, bs, kind)
    ensures r.Some? ==> Nearest(l, bs, kind, r.value)
  {
    r := None;
    for j := 0 to |bs|
      invariant r.None? <==> forall k :: 0 <= k < j ==> !l.Candidate(bs[k], kind)
      invariant r.Some? ==>
                  && r.value < j && l.Candidate(bs[r.value], kind)
                  && forall k :: 0 <= k < j && l.Candidate(bs[k], kind) ==>
                       l.Distance(bs[r.value]) <= l.Distance(bs[k])
                       && (k < r.value ==> l.Distance(bs[r.value]) < l.Distance(bs[k]))
    {
      if l.Candidate(bs[j], kind) && (r.None? || l.Distance(bs[j]) < l.Distance(bs[r.value])) {
        r := Some(j);
      }
    }
  }

  method SelectFallback(l: Limits, bs: seq<Boundary>) returns (r: Option<nat>)
    ensures r.Some? <==> AnyFallback(l, bs)
    ensures r.Some? ==> Furthest(l, bs, r.value)
  {
    r := None;
    for j := 0 to |bs|
      invariant r.None? <==> forall k :: 0 <= k < j ==> !l.Fallback(bs[k])
      invariant r.Some? ==>
                  && r.value < j && l.Fallback(bs[r.value])
                  && forall k :: 0 <= k < j && l.Fallback(bs[k]) ==> bs[k].charIndex <= bs[r.value].charIndex
    {
      if l.Fallback(bs[j]) && (r.None? || bs[j].charIndex >= bs[r.value].charIndex) {
        r := Some(j);
      }
    }
  }

  method Select(l: Limits, bs: seq<Boundary>) returns (r: Option<Boundary>)
    ensures Chosen(l, bs, r)
  {
    hide AnyOfKind, Nearest, AnyFallback, Furthest, IsNearest, IsFurthest;
    var blank := SelectKind(l, bs, BlankLine);
    if blank.Some? {
      NearestInRange(l, bs, BlankLine, blank.value);
      return Some(bs[blank.value]);
    }
    var structured := SelectKind(l, bs, StructuredLine);
    if structured.Some? {
      NearestInRange(l, bs, StructuredLine, structured.value);
      return Some(bs[structured.value]);
    }
    var line := SelectKind(l, bs, Line);
    if line.Some? {
      NearestInRange(l, bs, Line, line.value);
      return Some(bs[line.value]);
    }
    var fallback := SelectFallback(l, bs);
    if fallback.Some? {
      FurthestInRange(l, bs, fallback.value);
      return Some(bs[fallback.value]);
    }
    r := None;
  }

  lemma NearestInRange(l: Limits, bs: seq<Boundary>, kind: Kind, i: nat)
    requires Nearest(l, bs, kind, i)
    ensures i < |bs| && IsNearest(l, bs, kind, bs[i])
  {
  }

  lemma FurthestInRange(l: Limits, bs: seq<Boundary>, i: nat)
    requires Furthest(l, bs, i)
    ensures i < |bs| && IsFurthest(l, bs, bs[i])
  {
  }

  /** What is chosen is one of the boundaries, and nothing is chosen only if every boundary
      is too near. */
  lemma ChosenIsBoundary(l: Limits, bs: seq<Boundary>, r: Option<Boundary>)
    requires Chosen(l, bs, r)
    ensures r.Some? ==> r.value in bs && r.value.charIndex <= l.max
    ensures r.None? ==> forall b <- bs :: b.charIndex < FALLBACK_MIN || b.charIndex > l.max
    {
    hide AnyOfKind, IsNearest, IsFurthest;
    if r.Some? {
      if kind :| IsNearest(l, bs, kind, r.value) {
        NearestIsBoundary(l, bs, kind, r.value);
      } else {
        FurthestIsBoundary(l, bs, r.value);
      }
    }
  }

  lemma NearestIsBoundary(l: Limits, bs: seq<Boundary>, kind: Kind, b: Boundary)
    requires IsNearest(l, bs, kind, b)
    ensures b in bs && b.charIndex <= l.max
  {
  }

  lemma FurthestIsBoundary(l: Limits, bs: seq<Boundary>, b: Boundary)
    requires IsFurthest(l, bs, b)
    ensures b in bs && b.charIndex <= l.max
  {
  }
}
