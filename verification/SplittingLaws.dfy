/** What a split promises, and the inputs sent to a provider. */
module SplittingLaws {
  import opened Results
  import opened Text
  import opened Chunking
  import opened Splitting

  function Joined(chunks: seq<string>): (s: string) {
    if chunks == [] then [] else chunks[0] + Joined(chunks[1..])
  }

  /** A cut falls behind at least one and at most `max` characters. */
  lemma CutInRange(s: string, l: Limits, inFence: bool, n: nat, after: bool)
    requires CutAt(s, l, inFence, n, after) && 0 < l.max < |s|
    ensures 0 < n <= l.max
  {
    hide KindsFit, Increasing, Complete, Chosen, ByteLength, OddFences;
    var bs, r :| Natural(s, bs, l.max, inFence) && Chosen(l, bs, r) && Cuts(l, inFence, r, n, after);
    ChosenIsBoundary(l, bs, r);
  }

  /** What a piece says of the rest. */
  lemma PieceShape(t: string, l: Limits, at: nat, inFence: bool, chunk: string, next: nat, after: bool)
    requires Trimmed(t) && at < |t| && 0 < l.max && Piece(t, l, at, inFence, chunk, next, after)
    ensures next < |t|
    ensures var s := Rest(t, at);
            && Trimmed(s) && s == t[|t| - |s|..] && l.max < |s| <= |t| - at
            && var n := next + |s| - |t|;
               0 < n <= l.max && chunk == Trim(s[..n]) && s[n..] == t[next..] && CutAt(s, l, inFence, n, after)
  {
    hide CutAt, Trim;
    RestOfTrimmed(t, at);
    var s := Rest(t, at);
    CutInRange(s, l, inFence, next + |s| - |t|, after);
  }

  ghost predicate CutsInside(t: string, cuts: seq<nat>) {
    forall i :: 0 <= i < |cuts| ==> cuts[i] < |t|
  }

  lemma {:induction false} CutIsInside(t: string, l: Limits, cuts: seq<nat>, fences: seq<bool>, chunks: seq<string>, i: nat)
    requires Trimmed(t) && 0 < l.max && Split(t, l, cuts, fences, chunks) && i < |cuts|
    ensures cuts[i] < |t|
  {
    hide Piece, Rest, Trim;
    if i > 0 {
      var k := i - 1;
      CutIsInside(t, l, cuts, fences, chunks, k);
      assert Piece(t, l, cuts[k], fences[k], chunks[k], cuts[k + 1], fences[k + 1]);
      PieceShape(t, l, cuts[k], fences[k], chunks[k], cuts[k + 1], fences[k + 1]);
    }
  }

  lemma CutsAreInside(t: string, l: Limits, cuts: seq<nat>, fences: seq<bool>, chunks: seq<string>)
    requires Trimmed(t) && 0 < l.max && Split(t, l, cuts, fences, chunks)
    ensures CutsInside(t, cuts)
  {
    hide Split;
    forall i | 0 <= i < |cuts|
      ensures cuts[i] < |t|
    {
      CutIsInside(t, l, cuts, fences, chunks, i);
    }
  }

  /** A piece takes its characters off the text. */
  lemma PieceConserves(t: string, l: Limits, at: nat, inFence: bool, chunk: string, next: nat, after: bool)
    requires Trimmed(t) && at < |t| && 0 < l.max && Piece(t, l, at, inFence, chunk, next, after)
    ensures next < |t| && Solid(t[at..]) == Solid(chunk) + Solid(t[next..])
  {
    hide Piece, Solid, Trim, TrimStart, IsSpace, CutAt;
    TrimStartSolid(t[at..]);
    PieceShape(t, l, at, inFence, chunk, next, after);
    var s := Rest(t, at);
    var n := next + |s| - |t|;
    assert s == s[..n] + s[n..];
    SolidJoin(s[..n], s[n..]);
    TrimSolid(s[..n]);
  }

  lemma LastConserves(t: string, at: nat)
    requires at <= |t|
    ensures Solid(t[at..]) == Solid(Trim(Rest(t, at)))
  {
    hide Solid, Trim, TrimStart, IsSpace;
    TrimStartSolid(t[at..]);
    TrimSolid(Rest(t, at));
  }

  /** The pieces from the i-th on hold every character of the text behind the i-th cut that
      is not whitespace. */
  lemma {:induction false} ConservesFrom(t: string, l: Limits, cuts: seq<nat>, fences: seq<bool>, chunks: seq<string>, i: nat)
    requires Trimmed(t) && 0 < l.max && Split(t, l, cuts, fences, chunks) && i < |chunks| && CutsInside(t, cuts)
    ensures Solid(Joined(chunks[i..])) == Solid(t[cuts[i]..])
    decreases |chunks| - i
  {
    hide Piece, Solid, Trim, TrimStart, IsSpace, CutAt, Rest;
    assert chunks[i..][0] == chunks[i] && chunks[i..][1..] == chunks[i + 1..];
    SolidJoin(chunks[i], Joined(chunks[i + 1..]));
    if i == |chunks| - 1 {
      assert chunks[i] + [] == chunks[i];
      LastConserves(t, cuts[i]);
    } else {
      assert Piece(t, l, cuts[i], fences[i], chunks[i], cuts[i + 1], fences[i + 1]);
      PieceConserves(t, l, cuts[i], fences[i], chunks[i], cuts[i + 1], fences[i + 1]);
      ConservesFrom(t, l, cuts, fences, chunks, i + 1);
    }
  }

  /** No character but whitespace is lost, added or moved. */
  lemma SplitConserves(body: string, l: Limits, cuts: seq<nat>, fences: seq<bool>, chunks: seq<string>)
    requires 0 < l.max && !Blank(body) && Split(Trim(body), l, cuts, fences, chunks)
    ensures Solid(Joined(chunks)) == Solid(body)
  {
    hide Split, Solid, Trim, IsSpace;
    var t := Trim(body);
    TrimIsTrimmed(body);
    TrimSolid(body);
    SplitStarts(t, l, cuts, fences, chunks);
    CutsAreInside(t, l, cuts, fences, chunks);
    ConservesFrom(t, l, cuts, fences, chunks, 0);
    assert chunks[0..] == chunks && t[0..] == t;
  }

  lemma SplitStarts(t: string, l: Limits, cuts: seq<nat>, fences: seq<bool>, chunks: seq<string>)
    requires Split(t, l, cuts, fences, chunks)
    ensures |cuts| == |fences| == |chunks| > 0 && cuts[0] == 0 && !fences[0]
  {
    hide Piece, Rest, Trim;
  }

  /** A non-blank body's chunks are non-empty and within the limit. */
  lemma SplitSizes(body: string, l: Limits, cuts: seq<nat>, fences: seq<bool>, chunks: seq<string>, i: nat)
    requires 0 < l.max && !Blank(body) && Split(Trim(body), l, cuts, fences, chunks) && i < |chunks|
    ensures 0 < |chunks[i]| <= l.max
  {
    hide Piece, Solid, Trim, TrimStart, CutAt;
    var t := Trim(body);
    TrimIsTrimmed(body);
    CutsAreInside(t, l, cuts, fences, chunks);
    RestOfTrimmed(t, cuts[i]);
    var s := Rest(t, cuts[i]);
    if i == |chunks| - 1 {
      TrimSolid(s);
    } else {
      assert Piece(t, l, cuts[i], fences[i], chunks[i], cuts[i + 1], fences[i + 1]);
      PieceShape(t, l, cuts[i], fences[i], chunks[i], cuts[i + 1], fences[i + 1]);
      var n := cuts[i + 1] + |s| - |t|;
      TrimSolid(s[..n]);
      assert s[..n][0] == s[0];
    }
  }

  // ---- line-preserving splits ----

  /** No line is longer than the limit less 64 characters. */
  ghost predicate ShortLines(s: string, max: nat) {
    forall i, j :: 0 <= i < j <= |s| && NoNewline(s[i..j]) ==> j - i + FALLBACK_MIN <= max
  }

  lemma ShortSuffix(s: string, k: nat, max: nat)
    requires ShortLines(s, max) && k <= |s|
    ensures ShortLines(s[k..], max)
  {
    forall i, j | 0 <= i < j <= |s| - k && NoNewline(s[k..][i..j])
      ensures j - i + FALLBACK_MIN <= max
    {
      assert s[k..][i..j] == s[k + i..k + j];
    }
  }

  lemma SomeNewline(s: string, max: nat) returns (p: nat)
    requires ShortLines(s, max) && Trimmed(s) && |s| > max
    ensures FALLBACK_MIN - 1 <= p < max && s[p] == '\n'
  {
    assert NoNewline(s[0..1]);
    var window := s[FALLBACK_MIN - 1..max];
    assert !NoNewline(window);
    var i :| 0 <= i < |window| && window[i] == '\n';
    p := FALLBACK_MIN - 1 + i;
  }

  /** Where no line is long there is always a boundary, and the fence flag counts the
      fences of what is cut off. */
  lemma NaturalCut(s: string, l: Limits, inFence: bool, n: nat, after: bool)
    requires ShortLines(s, l.max) && Trimmed(s) && |s| > l.max && CutAt(s, l, inFence, n, after)
    ensures 0 < n < |s| && s[n - 1] == '\n' && after == (inFence != OddFences(s[..n]))
  {
    hide KindsFit, Increasing, Chosen, ByteLength, OddFences, ShortLines, Trimmed;
    var bs, r :| Natural(s, bs, l.max, inFence) && Chosen(l, bs, r) && Cuts(l, inFence, r, n, after);
    ChosenIsBoundary(l, bs, r);
    var p := SomeNewline(s, l.max);
    assert HasBoundary(bs, p + 1);
  }

  /** A line ends between the 64th character and the limit. */
  predicate LineEndsWithin(s: string, max: nat) {
    exists p :: FALLBACK_MIN - 1 <= p < |s| && p < max && s[p] == '\n'
  }

  /** Exactly when a cut is natural: if a line ends in reach, the cut is behind a newline and
      the flag counts the fences cut off; if none does, the cut is hard, at the limit, and
      the flag is carried over unchanged, whatever fences are cut off. */
  lemma NaturalIffLineEnds(s: string, l: Limits, inFence: bool, n: nat, after: bool)
    requires CutAt(s, l, inFence, n, after) && 0 < l.max < |s| && l.min >= FALLBACK_MIN
    ensures LineEndsWithin(s, l.max) ==> 0 < n <= l.max && s[n - 1] == '\n' && after == (inFence != OddFences(s[..n]))
    ensures !LineEndsWithin(s, l.max) ==> n == l.max && after == inFence
  {
    hide KindsFit, Increasing, Chosen, ByteLength, OddFences;
    var bs, r :| Natural(s, bs, l.max, inFence) && Chosen(l, bs, r) && Cuts(l, inFence, r, n, after);
    ChosenIsBoundary(l, bs, r);
    if LineEndsWithin(s, l.max) {
      var p :| FALLBACK_MIN - 1 <= p < |s| && p < l.max && s[p] == '\n';
      assert HasBoundary(bs, p + 1);
    } else if r.Some? {
      ChosenIsFar(l, bs, r.value);
      BoundaryEndsLine(s, bs, l.max, inFence, r.value);
    }
  }

  lemma BoundaryEndsLine(s: string, bs: seq<Boundary>, max: nat, inFence: bool, b: Boundary)
    requires AllMark(s, bs, max, inFence) && b in bs && FALLBACK_MIN <= b.charIndex <= max < |s|
    ensures LineEndsWithin(s, max)
  {
    hide ByteLength, OddFences;
    assert s[b.charIndex - 1] == '\n';
  }

  lemma ChosenIsFar(l: Limits, bs: seq<Boundary>, b: Boundary)
    requires Chosen(l, bs, Some(b)) && l.min >= FALLBACK_MIN
    ensures b.charIndex >= FALLBACK_MIN
  {
    hide AnyOfKind, AnyFallback;
  }

  /** One cut carries the parity on. */
  lemma ParityCarried(t: string, at: nat, n: nat, next: nat)
    requires Trimmed(t) && at < |t| && EndsLine(t[..at]) && |Rest(t, at)| <= |t| - at
    requires Rest(t, at) == t[|t| - |Rest(t, at)|..] && n <= |Rest(t, at)| && next == |t| - |Rest(t, at)| + n
    ensures OddFences(t[..next]) == (OddFences(t[..at]) != OddFences(Rest(t, at)[..n]))
  {
    hide OddFences, TrimStart, IsSpace;
    var s := Rest(t, at);
    var k := |t| - |s|;
    var space, cut := t[at..k], s[..n];
    assert Blank(space) by {
      SkippedIsBlank(t, at);
    }
    assert cut == t[k..next];
    assert t[..next] == t[..at] + (space + cut);
    FencesJoin(t[..at], space + cut);
    SpaceHasNoFence(space, cut);
  }

  lemma SkippedIsBlank(t: string, at: nat)
    requires at <= |t| && |Rest(t, at)| <= |t| - at
    ensures Blank(t[at..|t| - |Rest(t, at)|])
  {
    hide TrimStart, IsSpace;
    var s := t[at..];
    TrimStartShape(s);
    assert t[at..|t| - |Rest(t, at)|] == s[..|s| - |TrimStart(s)|];
  }

  lemma PieceKeepsLines(t: string, l: Limits, at: nat, inFence: bool, chunk: string, next: nat, after: bool)
    requires Trimmed(t) && at < |t| && 0 < l.max && Piece(t, l, at, inFence, chunk, next, after)
    requires ShortLines(t, l.max) && EndsLine(t[..at]) && inFence == OddFences(t[..at])
    ensures next < |t| && EndsLine(t[..next]) && after == OddFences(t[..next])
  {
    hide Piece, Trim, CutAt, OddFences, ShortLines, IsSpace, TrimStart;
    PieceShape(t, l, at, inFence, chunk, next, after);
    var s := Rest(t, at);
    var n := next + |s| - |t|;
    ShortSuffix(t, |t| - |s|, l.max);
    NaturalCut(s, l, inFence, n, after);
    assert t[next - 1] == s[n - 1];
    ParityCarried(t, at, n, next);
  }

  /** If no line is longer than the limit less 64 characters, every cut falls right behind a
      newline, and the fence flag carried on is the parity of the fence lines so far. */
  lemma {:induction false} SplitKeepsLines(body: string, l: Limits, cuts: seq<nat>, fences: seq<bool>,
                                           chunks: seq<string>, i: nat)
    requires 0 < l.max && !Blank(body) && Split(Trim(body), l, cuts, fences, chunks) && i < |cuts|
    requires ShortLines(Trim(body), l.max)
    ensures cuts[i] < |Trim(body)| && EndsLine(Trim(body)[..cuts[i]])
    ensures fences[i] == OddFences(Trim(body)[..cuts[i]])
  {
    hide Piece, Trim, CutAt, OddFences, ShortLines, IsSpace, TrimStart, Rest;
    var t := Trim(body);
    TrimIsTrimmed(body);
    if i == 0 {
      NoFencesInNothing();
      assert t[..0] == [];
    } else {
      SplitKeepsLines(body, l, cuts, fences, chunks, i - 1);
      assert Piece(t, l, cuts[i - 1], fences[i - 1], chunks[i - 1], cuts[i - 1 + 1], fences[i - 1 + 1]);
      PieceKeepsLines(t, l, cuts[i - 1], fences[i - 1], chunks[i - 1], cuts[i], fences[i]);
    }
  }

  lemma NoFencesInNothing()
    ensures !OddFences([])
  {
  }

  // ---- when the fence flag is right ----

  /** The piece keeps the flag right: a natural cut unless it began inside a line that
      counts otherwise as a whole; a hard cut if it cuts off no fence. */
  predicate KeepsFlag(t: string, max: nat, at: nat, next: nat)
    requires at <= next <= |t|
  {
    if LineEndsWithin(Rest(t, at), max) then !Straddles(t[..at], t[at..next])
    else OddFences(t[at..next]) == Straddles(t[..at], t[at..next])
  }

  /** The text a piece takes, its leading whitespace included, has the fences of the cut. */
  lemma TakenFences(t: string, at: nat, n: nat, next: nat)
    requires Trimmed(t) && at < |t| && |Rest(t, at)| <= |t| - at && n <= |Rest(t, at)|
    requires Rest(t, at) == t[|t| - |Rest(t, at)|..] && next == |t| - |Rest(t, at)| + n
    ensures at <= next && OddFences(t[at..next]) == OddFences(Rest(t, at)[..n])
  {
    hide OddFences, TrimStart, IsSpace;
    var k := |t| - |Rest(t, at)|;
    SkippedIsBlank(t, at);
    assert Rest(t, at)[..n] == t[k..next];
    assert t[at..next] == t[at..k] + t[k..next];
    SpaceHasNoFence(t[at..k], t[k..next]);
  }

  /** Exactly when a piece leaves the flag right. */
  lemma FlagStaysRight(t: string, l: Limits, at: nat, inFence: bool, chunk: string, next: nat, after: bool)
    requires Trimmed(t) && at < |t| && 0 < l.max && l.min >= FALLBACK_MIN
    requires Piece(t, l, at, inFence, chunk, next, after) && inFence == OddFences(t[..at])
    ensures at <= next < |t|
    ensures after == OddFences(t[..next]) <==> KeepsFlag(t, l.max, at, next)
  {
    hide Piece, Trim, CutAt, OddFences, IsSpace, TrimStart, Straddles, LineEndsWithin;
    PieceShape(t, l, at, inFence, chunk, next, after);
    var s := Rest(t, at);
    var n := next + |s| - |t|;
    NaturalIffLineEnds(s, l, inFence, n, after);
    TakenFences(t, at, n, next);
    assert t[..next] == t[..at] + t[at..next];
    FencesMeet(t[..at], t[at..next]);
  }

  /** From the beginning of a line: the flag stays right exactly if a line ends in reach or
      the hard cut cuts off an even number of fences. */
  lemma FlagFromLineStart(t: string, l: Limits, at: nat, inFence: bool, chunk: string, next: nat, after: bool)
    requires Trimmed(t) && at < |t| && 0 < l.max && l.min >= FALLBACK_MIN && EndsLine(t[..at])
    requires Piece(t, l, at, inFence, chunk, next, after) && inFence == OddFences(t[..at])
    ensures at <= next < |t|
    ensures after == OddFences(t[..next]) <==> LineEndsWithin(Rest(t, at), l.max) || !OddFences(t[at..next])
    ensures l.max >= FALLBACK_MIN ==> (EndsLine(t[..next]) <==> LineEndsWithin(Rest(t, at), l.max))
  {
    hide Piece, Trim, CutAt, OddFences, IsSpace, TrimStart, Straddles, LineEndsWithin;
    FlagStaysRight(t, l, at, inFence, chunk, next, after);
    NoStraddle(t[..at], t[at..next]);
    if l.max >= FALLBACK_MIN {
      LineStaysWhole(t, l, at, inFence, chunk, next, after);
    }
  }

  /** A piece ends behind a newline exactly if a line ends in reach. */
  lemma LineStaysWhole(t: string, l: Limits, at: nat, inFence: bool, chunk: string, next: nat, after: bool)
    requires Trimmed(t) && at < |t| && 0 < l.max && l.min >= FALLBACK_MIN && l.max >= FALLBACK_MIN
    requires Piece(t, l, at, inFence, chunk, next, after)
    ensures 0 < next < |t| && (EndsLine(t[..next]) <==> LineEndsWithin(Rest(t, at), l.max))
  {
    hide Piece, Trim, CutAt, OddFences, IsSpace, TrimStart;
    PieceShape(t, l, at, inFence, chunk, next, after);
    var s := Rest(t, at);
    var n := next + |s| - |t|;
    NaturalIffLineEnds(s, l, inFence, n, after);
    assert t[next - 1] == s[n - 1];
  }

  ghost predicate FlagsRight(t: string, cuts: seq<nat>, fences: seq<bool>, m: nat)
    requires m <= |cuts| == |fences| && CutsInside(t, cuts)
  {
    forall i :: 0 <= i < m ==> fences[i] == OddFences(t[..cuts[i]])
  }

  /** The first m pieces keep the flag right. */
  ghost predicate AllKeepFlag(t: string, max: nat, cuts: seq<nat>, m: nat)
    requires m < |cuts|
  {
    forall i :: 0 <= i < m ==> Kept(t, max, cuts, i)
  }

  ghost predicate Kept(t: string, max: nat, cuts: seq<nat>, i: nat)
    requires i + 1 < |cuts|
  {
    cuts[i] <= cuts[i + 1] <= |t| && KeepsFlag(t, max, cuts[i], cuts[i + 1])
  }

  /** Over a whole split: the flags are right up to a cut exactly if every piece before it
      keeps the flag right. */
  lemma {:induction false} FlagsRightIff(body: string, l: Limits, cuts: seq<nat>, fences: seq<bool>, chunks: seq<string>, m: nat)
    requires 0 < l.max && l.min >= FALLBACK_MIN && !Blank(body) && Split(Trim(body), l, cuts, fences, chunks) && m < |cuts|
    ensures |cuts| == |fences| && CutsInside(Trim(body), cuts)
    ensures FlagsRight(Trim(body), cuts, fences, m + 1) <==> AllKeepFlag(Trim(body), l.max, cuts, m)
  {
    hide Piece, Trim, OddFences, IsSpace, KeepsFlag;
    var t := Trim(body);
    TrimIsTrimmed(body);
    CutsAreInside(t, l, cuts, fences, chunks);
    if m == 0 {
      NoFencesInNothing();
      assert t[..0] == [];
    } else {
      FlagsRightIff(body, l, cuts, fences, chunks, m - 1);
      var i := m - 1;
      assert AllKeepFlag(t, l.max, cuts, m) <==> AllKeepFlag(t, l.max, cuts, i) && Kept(t, l.max, cuts, i);
      assert Piece(t, l, cuts[i], fences[i], chunks[i], cuts[i + 1], fences[i + 1]);
      if FlagsRight(t, cuts, fences, m) {
        FlagStaysRight(t, l, cuts[i], fences[i], chunks[i], cuts[i + 1], fences[i + 1]);
      }
    }
  }

  /** A split keeps lines up to a cut: each cut falls behind a newline and carries the right
      flag. */
  ghost predicate KeepsLines(t: string, cuts: seq<nat>, fences: seq<bool>, m: nat)
    requires m <= |cuts| == |fences| && CutsInside(t, cuts)
  {
    forall i :: 0 <= i < m ==> EndsLine(t[..cuts[i]]) && fences[i] == OddFences(t[..cuts[i]])
  }

  /** It does exactly if every piece finds the end of a line in reach. */
  lemma {:induction false} KeepsLinesIff(body: string, l: Limits, cuts: seq<nat>, fences: seq<bool>, chunks: seq<string>, m: nat)
    requires FALLBACK_MIN <= l.max && FALLBACK_MIN <= l.min
    requires !Blank(body) && Split(Trim(body), l, cuts, fences, chunks) && m < |cuts|
    ensures |cuts| == |fences| && CutsInside(Trim(body), cuts)
    ensures KeepsLines(Trim(body), cuts, fences, m + 1)
            <==> forall i :: 0 <= i < m ==> LineEndsWithin(Rest(Trim(body), cuts[i]), l.max)
  {
    hide Piece, Trim, OddFences, IsSpace, TrimStart, LineEndsWithin, Rest;
    var t := Trim(body);
    TrimIsTrimmed(body);
    CutsAreInside(t, l, cuts, fences, chunks);
    if m == 0 {
      NoFencesInNothing();
      assert t[..0] == [];
    } else {
      KeepsLinesIff(body, l, cuts, fences, chunks, m - 1);
      var i := m - 1;
      assert Piece(t, l, cuts[i], fences[i], chunks[i], cuts[i + 1], fences[i + 1]);
      LineStaysWhole(t, l, cuts[i], fences[i], chunks[i], cuts[i + 1], fences[i + 1]);
      if KeepsLines(t, cuts, fences, m) {
        FlagFromLineStart(t, l, cuts[i], fences[i], chunks[i], cuts[i + 1], fences[i + 1]);
      }
    }
  }

  // ---- a fence the flag misses ----

  /** A code block of one line of n characters. */
  function OneLongLine(n: nat): (body: string) {
    "```\n" + seq(n, i => 'x')
  }

  /** If the line is too long for one piece, the first cut falls into the code, and the
      flag carried on denies it. */
  lemma FenceMissed(n: nat, cuts: seq<nat>, fences: seq<bool>, chunks: seq<string>)
    requires n > BODY_MAX - 4 && Split(Trim(OneLongLine(n)), LIMITS, cuts, fences, chunks)
    ensures Trim(OneLongLine(n)) == OneLongLine(n) && |cuts| > 1 && |fences| > 1
    ensures cuts[1] == BODY_MAX && !fences[1] && OddFences(OneLongLine(n)[..cuts[1]])
  {
    hide Piece, OddFences, TrimStart, TrimEnd, CutAt, Trim;
    var t := OneLongLine(n);
    LongLineStays(n);
    assert Rest(t, 0) == t;
    assert Piece(t, LIMITS, cuts[0], fences[0], chunks[0], cuts[0 + 1], fences[0 + 1]);
    PieceShape(t, LIMITS, 0, false, chunks[0], cuts[1], fences[1]);
    NaturalIffLineEnds(t, LIMITS, false, cuts[1], fences[1]);
    assert t[..cuts[1]] == OneLongLine(cuts[1] - 4);
    LongLineFence(cuts[1] - 4);
  }

  lemma LongLineStays(n: nat)
    requires n > 0
    ensures var t := OneLongLine(n); Trim(t) == t && Trimmed(t) && TrimStart(t[0..]) == t && !Blank(t)
  {
    var t := OneLongLine(n);
    assert t[0..] == t && t[0] == '`' && t[|t| - 1] == 'x';
  }

  lemma LongLineFence(n: nat)
    ensures OddFences(OneLongLine(n))
  {
    hide OddFences, FenceLine;
    var line := seq(n, i => 'x');
    assert EndsLine("```\n");
    FencesJoin("```\n", line);
    FencesOfLine(line);
    OpeningFence();
    XsAreNoFence(n);
  }

  lemma OpeningFence()
    ensures OddFences("```\n")
  {
    hide FenceLine;
    var s := "```\n";
    assert s[1..] == "``\n" && s[1..][1..] == "`\n" && s[1..][1..][1..] == "\n";
    assert LineLength(s) == 4 && s[..4] == s && s[4..] == [];
    FenceItself();
  }

  lemma FenceItself()
    ensures FenceLine("```\n")
  {
    var s := "```\n";
    assert TrimStart(s) == s && s[..3] == "```" && s[3] == '\n';
    assert TrimEnd(s) == TrimEnd("```") == "```";
  }

  lemma XsAreNoFence(n: nat)
    ensures !FenceLine(seq(n, i => 'x'))
  {
    var s := seq(n, i => 'x');
    if n > 0 {
      assert s[0] == 'x' && s[n - 1] == 'x';
      assert Trim(s) == s;
    }
  }

  // ---- provider inputs ----

  /** At most 8000 characters; a longer input is cut and marked. */
  method CapProviderInput(input: string) returns (r: string)
    ensures |r| <= PROVIDER_MAX
    ensures |input| <= PROVIDER_MAX ==> r == input
    ensures |input| > PROVIDER_MAX ==> r == TrimEnd(input[..PROVIDER_MAX - |MARKER|]) + MARKER
  {
    if |input| <= PROVIDER_MAX {
      return input;
    }
    var content := PROVIDER_MAX - |MARKER|;
    r := TrimEnd(input[..content]) + MARKER;
  }

  datatype TextChunk = TextChunk(chunkIndex: nat, text: string)

  /** The body behind a header line, or the whole text if it does not start with it. */
  function BodyOf(full: string, header: string): (body: string) {
    if header == "" then full
    else if header + "\n" <= full then full[|header| + 1..]
    else full
  }

  const LIMITS: Limits := Limits(BODY_MIN, BODY_TARGET, BODY_MAX)

  method SplitForEmbedding(full: string, header: string) returns (r: seq<TextChunk>)
    ensures forall i :: 0 <= i < |r| ==> r[i].chunkIndex == i && |r[i].text| <= PROVIDER_MAX
    ensures |r| > 0
    ensures |full| <= SINGLE_VECTOR_MAX ==> r == [TextChunk(0, full)]
    ensures |full| > SINGLE_VECTOR_MAX ==> exists bodies :: Embeds(full, header, bodies, r)
  {
    hide Split, Blank, Trim;
    if |full| <= SINGLE_VECTOR_MAX {
      var text := CapProviderInput(full);
      return [TextChunk(0, text)];
    }
    ghost var cuts, fences;
    var bodies;
    bodies, cuts, fences := SplitBody(BodyOf(full, header), LIMITS);
    assert BodiesOf(full, header, bodies);
    r := [];
    for i := 0 to |bodies|
      invariant |r| == i
      invariant forall k :: 0 <= k < i ==> r[k].chunkIndex == k && Provided(header, bodies[k], r[k].text)
    {
      var text := CapProviderInput(if header == "" then bodies[i] else header + "\n" + bodies[i]);
      r := r + [TextChunk(i, text)];
    }
    assert Embeds(full, header, bodies, r);
    if r == [] {
      SplitNotEmpty(full, header, bodies);
    }
  }

  /** What is sent for one body: header and body, capped. */
  ghost predicate Provided(header: string, body: string, text: string) {
    var input := if header == "" then body else header + "\n" + body;
    && |text| <= PROVIDER_MAX
    && (|input| <= PROVIDER_MAX ==> text == input)
    && (|input| > PROVIDER_MAX ==> text == TrimEnd(input[..PROVIDER_MAX - |MARKER|]) + MARKER)
  }

  ghost predicate BodiesOf(full: string, header: string, bodies: seq<string>) {
    var body := BodyOf(full, header);
    if Blank(body) then bodies == [""]
    else exists cuts, fences :: Split(Trim(body), LIMITS, cuts, fences, bodies)
  }

  ghost predicate Embeds(full: string, header: string, bodies: seq<string>, r: seq<TextChunk>) {
    && BodiesOf(full, header, bodies) && |r| == |bodies|
    && forall i :: 0 <= i < |r| ==> r[i].chunkIndex == i && Provided(header, bodies[i], r[i].text)
  }

  lemma SplitNotEmpty(full: string, header: string, bodies: seq<string>)
    requires BodiesOf(full, header, bodies)
    ensures |bodies| > 0
  {
    hide Piece, Rest, Trim;
  }
}
