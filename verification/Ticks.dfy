/** Sample times: the tick of every sample of a geometry, and the loop that checks them. */
module Ticks {
  import opened Bytes
  import opened Results
  import opened Codec
  import opened Chunk

  const LAST: nat := 0xFFFF_FFFF_FFFF_FFFF

  /** A column with time deltas for at least n samples. */
  predicate HasDeltas(dt: Column, n: nat) {
    (dt.dtype.U32? && |dt.values| >= 4 * n) || (dt.dtype.U64? && |dt.values| >= 8 * n)
  }

  /** The delta of sample i. */
  function Delta(dt: Column, i: nat): (d: u64)
    requires HasDeltas(dt, i + 1)
  {
    RadixValues();
    if dt.dtype.U32? then
      FromLittleEndianBound(dt.values[4 * i..4 * i + 4]);
      FromLittleEndian(dt.values[4 * i..4 * i + 4])
    else
      FromLittleEndianBound(dt.values[8 * i..8 * i + 8]);
      FromLittleEndian(dt.values[8 * i..8 * i + 8])
  }

  /** A run of samples whose first has tick `first`. */
  datatype Run = Run(dt: Column, first: u64, start: nat, count: nat) {
    predicate Valid() {
      count > 0 && HasDeltas(dt, start + count)
    }

    /** The tick of the k-th sample. */
    function Tick(k: nat): (t: nat)
      requires Valid() && k < count
    {
      if k == 0 then first else Tick(k - 1) + Delta(dt, start + k)
    }

    function Ticks(): (ts: seq<nat>)
      requires Valid()
      ensures |ts| == count && forall k :: 0 <= k < count ==> ts[k] == Tick(k)
    {
      seq(count, k requires 0 <= k < count => Tick(k))
    }

    lemma {:induction false} TickGrows(j: nat, k: nat)
      requires Valid() && j <= k < count
      ensures Tick(j) <= Tick(k)
    {
      if j < k {
        TickGrows(j, k - 1);
      }
    }
  }

  ghost predicate AllValid(runs: seq<Run>) {
    forall i :: 0 <= i < |runs| ==> runs[i].Valid()
  }

  /** The ticks of all runs, one after the other. */
  ghost function AllTicks(runs: seq<Run>): (ts: seq<nat>)
    requires AllValid(runs)
  {
    if runs == [] then [] else AllTicks(runs[..|runs| - 1]) + runs[|runs| - 1].Ticks()
  }

  predicate NeverDecrease(ts: seq<nat>) {
    forall i, j :: 0 <= i < j < |ts| ==> ts[i] <= ts[j]
  }

  predicate FirstDeltasZero(runs: seq<Run>)
    requires AllValid(runs)
  {
    forall i :: 0 <= i < |runs| ==> Delta(runs[i].dt, runs[i].start) == 0
  }

  /** Every run starts with a zero delta, time never goes back over all samples, and no
      sample's session time overflows. */
  ghost predicate Timed(runs: seq<Run>, startTick: u64)
    requires AllValid(runs)
  {
    && FirstDeltasZero(runs)
    && NeverDecrease(AllTicks(runs))
    && forall t <- AllTicks(runs) :: startTick + t <= LAST
  }

  /** The condition of one run after a prior tick. */
  predicate Follows(run: Run, prior: Option<u64>, startTick: u64)
    requires run.Valid()
  {
    && Delta(run.dt, run.start) == 0
    && (prior.Some? ==> prior.value <= run.first)
    && startTick + run.Tick(run.count - 1) <= LAST
  }

  /** The loop over the samples of one run. */
  method CheckRun(run: Run, prior: Option<u64>, startTick: u64) returns (ok: bool, last: Option<u64>)
    requires run.Valid()
    ensures ok <==> Follows(run, prior, startTick)
    ensures ok ==> last == Some(run.Tick(run.count - 1))
  {
    hide Delta;
    var tick: u64 := run.first;
    last := prior;
    for k := 0 to run.count
      invariant k > 0 ==> tick == run.Tick(k - 1) && last == Some(tick) && startTick + tick <= LAST
      invariant k > 0 ==> Delta(run.dt, run.start) == 0 && (prior.Some? ==> prior.value <= run.first)
      invariant k == 0 ==> tick == run.first && last == prior
    {
      run.TickGrows(k, run.count - 1);
      var delta := Delta(run.dt, run.start + k);
      if k == 0 {
        if delta != 0 {
          return false, last;
        }
      } else {
        if tick + delta > LAST {
          return false, last;
        }
        tick := tick + delta;
      }
      if last.Some? && tick < last.value {
        return false, last;
      }
      last := Some(tick);
      if startTick + tick > LAST {
        return false, last;
      }
    }
    ok := true;
  }

  function LastTick(ts: seq<nat>): (t: Option<nat>) {
    if ts == [] then None else Some(ts[|ts| - 1])
  }

  /** Appending a run keeps the timing sound exactly when the run follows. */
  lemma RunFollows(runs: seq<Run>, run: Run, startTick: u64, prior: Option<u64>)
    requires AllValid(runs) && run.Valid() && prior == LastTick(AllTicks(runs)) && Timed(runs, startTick)
    ensures AllValid(runs + [run])
    ensures Timed(runs + [run], startTick) <==> Follows(run, prior, startTick)
    ensures LastTick(AllTicks(runs + [run])) == Some(run.Tick(run.count - 1))
  {
    hide Delta;
    var all := runs + [run];
    var before, added := AllTicks(runs), run.Ticks();
    assert all[..|runs|] == runs;
    assert AllTicks(all) == before + added;
    assert FirstDeltasZero(all) <==> Delta(run.dt, run.start) == 0 by {
      assert all[|runs|] == run;
      assert forall i :: 0 <= i < |runs| ==> all[i] == runs[i];
    }
    AppendTicks(before, run, prior, startTick);
  }

  lemma AppendTicks(before: seq<nat>, run: Run, prior: Option<u64>, startTick: u64)
    requires run.Valid() && prior == LastTick(before) && NeverDecrease(before)
    requires forall t <- before :: startTick + t <= LAST
    ensures var all := before + run.Ticks();
            && (NeverDecrease(all) <==> (prior.Some? ==> prior.value <= run.first))
            && ((forall t <- all :: startTick + t <= LAST) <==> startTick + run.Tick(run.count - 1) <= LAST)
  {
    hide Delta;
    var n, ts := |before|, run.Ticks();
    var all := before + ts;
    forall k | 0 <= k < run.count
      ensures run.first <= ts[k] <= ts[run.count - 1]
    {
      run.TickGrows(0, k);
      run.TickGrows(k, run.count - 1);
    }
    forall j, k | 0 <= j < k < run.count
      ensures ts[j] <= ts[k]
    {
      run.TickGrows(j, k);
    }
    if prior.Some? {
      assert all[n - 1] == prior.value && all[n] == run.first;
    }
    assert ts[run.count - 1] in ts && ts[run.count - 1] in all;
    assert forall t <- ts :: t <= ts[run.count - 1];
    assert forall t :: t in all <==> t in before || t in ts;
  }

  /** Once timing is unsound it stays so. */
  lemma TimedPrefix(runs: seq<Run>, k: nat, startTick: u64)
    requires AllValid(runs) && k <= |runs| && Timed(runs, startTick)
    ensures AllValid(runs[..k]) && Timed(runs[..k], startTick)
    decreases |runs| - k
  {
    hide Delta;
    if k < |runs| {
      TimedPrefix(runs, k + 1, startTick);
      var next := runs[..k + 1];
      assert next[..k] == runs[..k] && next[|next| - 1] == runs[k];
      assert AllTicks(next) == AllTicks(runs[..k]) + runs[k].Ticks();
      var a, b := AllTicks(runs[..k]), AllTicks(next);
      assert forall i :: 0 <= i < |a| ==> a[i] == b[i];
      assert forall t <- a :: t in b;
    } else {
      assert runs[..k] == runs;
    }
  }
}
