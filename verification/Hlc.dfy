/** Hybrid logical clocks, and what holds over every run of sends and receives. */
module Hlc {
  import opened Bytes
  import opened Results

  type u128 = x: int | 0 <= x < 0x1_0000_0000_0000_0000_0000_0000_0000_0000

  const COUNTER_MAX: nat := 0xFFFF_FFFF

  datatype Clock = Clock(wall: u64, counter: u32, device: u128)

  /** The derived order. */
  predicate Precedes(a: Clock, b: Clock) {
    || a.wall < b.wall
    || (a.wall == b.wall && a.counter < b.counter)
    || (a.wall == b.wall && a.counter == b.counter && a.device < b.device)
  }

  lemma PrecedesChains(a: Clock, b: Clock, c: Clock)
    requires Precedes(a, b) && Precedes(b, c)
    ensures Precedes(a, c)
  {
  }

  function Next(counter: u32): (r: u32) {
    if counter == COUNTER_MAX then counter else counter + 1
  }

  function Max(a: nat, b: nat): (m: nat) {
    if a >= b then a else b
  }

  function Send(previous: Option<Clock>, now: u64, device: u128): (r: Clock) {
    if previous.Some? && previous.value.wall >= now
    then Clock(previous.value.wall, Next(previous.value.counter), device)
    else Clock(now, 0, device)
  }

  function Receive(local: Option<Clock>, remote: Clock, now: u64, device: u128): (r: Clock) {
    var localWall := if local.Some? then local.value.wall else 0;
    var wall := Max(Max(now, localWall), remote.wall);
    var here := local.Some? && local.value.wall == wall;
    var counter :=
      if here && remote.wall == wall then Next(Max(local.value.counter, remote.counter))
      else if here then Next(local.value.counter)
      else if remote.wall == wall then Next(remote.counter)
      else 0;
    Clock(wall, counter, device)
  }

  // ---- one event ----

  /** The clock of an event: a send, or the receipt of a clock. */
  function Stamp(local: Option<Clock>, incoming: Option<Clock>, now: u64, device: u128): (r: Clock) {
    if incoming.Some? then Receive(local, incoming.value, now, device) else Send(local, now, device)
  }

  /** Something is ahead of the device's own clock, or it can still count. */
  predicate LocalAdvances(local: Clock, incoming: Option<Clock>, now: u64) {
    now > local.wall || (incoming.Some? && incoming.value.wall > local.wall) || local.counter < COUNTER_MAX
  }

  /** Something is ahead of the clock received, or it can still count, or the device's
      identifier decides. */
  predicate IncomingAdvances(local: Option<Clock>, incoming: Clock, now: u64, device: u128) {
    || now > incoming.wall
    || (local.Some? && local.value.wall > incoming.wall)
    || incoming.counter < COUNTER_MAX
    || incoming.device < device
  }

  /** Exactly when a send or a receive follows the device's own previous clock; otherwise it
      issues that clock again. */
  lemma LocalFollows(local: Clock, incoming: Option<Clock>, now: u64)
    ensures var r := Stamp(Some(local), incoming, now, local.device);
            && (Precedes(local, r) <==> LocalAdvances(local, incoming, now))
            && (!LocalAdvances(local, incoming, now) ==> r == local)
  {
  }

  /** Exactly when a receive follows both its inputs. */
  lemma ReceiveFollows(local: Option<Clock>, remote: Clock, now: u64, device: u128)
    requires local.Some? ==> local.value.device == device
    ensures var r := Receive(local, remote, now, device);
            && (Precedes(remote, r) <==> IncomingAdvances(local, remote, now, device))
            && (local.Some? ==> (Precedes(local.value, r) <==> LocalAdvances(local.value, Some(remote), now)))
  {
    if local.Some? {
      LocalFollows(local.value, Some(remote), now);
    }
  }

  // ---- runs ----

  /** Where an event gets a clock from: nowhere, an earlier event, or outside the run, as a
      clock parsed from an operation that was pushed. */
  datatype Origin = Sent | Received(event: nat) | Pushed(clock: Clock)

  /** An event on a device, with its physical clock reading. */
  datatype Event = Event(device: u128, now: u64, origin: Origin)

  type Run = seq<Event>

  predicate Valid(run: Run) {
    forall i :: 0 <= i < |run| && run[i].origin.Received? ==> run[i].origin.event < i
  }

  /** The latest earlier event on the device of event i. */
  function Previous(run: Run, i: nat): (p: Option<nat>)
    requires i < |run|
    ensures p.Some? ==> p.value < i && run[p.value].device == run[i].device
  {
    PreviousBefore(run, i, i)
  }

  function PreviousBefore(run: Run, i: nat, n: nat): (p: Option<nat>)
    requires n <= i < |run|
    ensures p.Some? ==> p.value < n && run[p.value].device == run[i].device
    ensures p.Some? ==> forall k :: p.value < k < n ==> run[k].device != run[i].device
    ensures p.None? ==> forall k :: 0 <= k < n ==> run[k].device != run[i].device
  {
    if n == 0 then None
    else if run[n - 1].device == run[i].device then Some(n - 1)
    else PreviousBefore(run, i, n - 1)
  }

  /** The clock of the device before event i. */
  function Local(run: Run, i: nat): (c: Option<Clock>)
    requires Valid(run) && i < |run|
    decreases i, 0
  {
    var p := Previous(run, i);
    if p.Some? then Some(ClockAt(run, p.value)) else None
  }

  /** The clock event i receives. */
  function Incoming(run: Run, i: nat): (c: Option<Clock>)
    requires Valid(run) && i < |run|
    decreases i, 0
  {
    match run[i].origin
    case Sent => None
    case Received(from) => Some(ClockAt(run, from))
    case Pushed(clock) => Some(clock)
  }

  /** The clock of event i. */
  function ClockAt(run: Run, i: nat): (c: Clock)
    requires Valid(run) && i < |run|
    ensures c.device == run[i].device
    decreases i, 1
  {
    Stamp(Local(run, i), Incoming(run, i), run[i].now, run[i].device)
  }

  /** Event i directly precedes event k: it is the previous event of the device, or the one
      whose clock is received. */
  predicate Direct(run: Run, i: nat, k: nat) {
    && i < k < |run|
    && (Previous(run, k) == Some(i) || run[k].origin == Received(i))
  }

  /** Event i happened before event k. */
  ghost predicate Happened(run: Run, i: nat, k: nat)
    decreases k
  {
    k < |run| && exists j: nat :: Direct(run, j, k) && (i == j || Happened(run, i, j))
  }

  lemma {:induction false} HappenedIsEarlier(run: Run, i: nat, k: nat)
    requires Happened(run, i, k)
    ensures i < k < |run|
    decreases k
  {
    var j: nat :| Direct(run, j, k) && (i == j || Happened(run, i, j));
    if i != j {
      HappenedIsEarlier(run, i, j);
    }
  }

  // ---- exactly when clocks increase ----

  /** Event k finds its device's previous clock able to advance. */
  predicate LocalOk(run: Run, k: nat)
    requires Valid(run) && k < |run|
  {
    Local(run, k).Some? ==> LocalAdvances(Local(run, k).value, Incoming(run, k), run[k].now)
  }

  /** And so it finds the clock of the event it receives. */
  predicate ReceivedOk(run: Run, k: nat)
    requires Valid(run) && k < |run|
  {
    run[k].origin.Received? ==>
      IncomingAdvances(Local(run, k), ClockAt(run, run[k].origin.event), run[k].now, run[k].device)
  }

  lemma LocalStep(run: Run, k: nat)
    requires Valid(run) && k < |run| && Previous(run, k).Some?
    ensures var p := Previous(run, k).value;
            && (Precedes(ClockAt(run, p), ClockAt(run, k)) <==> LocalOk(run, k))
            && (!LocalOk(run, k) ==> ClockAt(run, k) == ClockAt(run, p))
  {
    hide LocalAdvances, Precedes, Stamp;
    LocalFollows(Local(run, k).value, Incoming(run, k), run[k].now);
  }

  lemma ReceivedStep(run: Run, k: nat)
    requires Valid(run) && k < |run| && run[k].origin.Received?
    ensures Precedes(ClockAt(run, run[k].origin.event), ClockAt(run, k)) <==> ReceivedOk(run, k)
  {
    hide LocalAdvances, IncomingAdvances, Precedes, Receive, Send;
    ReceiveFollows(Local(run, k), ClockAt(run, run[k].origin.event), run[k].now, run[k].device);
  }

  lemma DirectFollows(run: Run, i: nat, k: nat)
    requires Valid(run) && Direct(run, i, k) && LocalOk(run, k) && ReceivedOk(run, k)
    ensures Precedes(ClockAt(run, i), ClockAt(run, k))
  {
    hide ClockAt, LocalOk, ReceivedOk, Precedes;
    if Previous(run, k) == Some(i) {
      LocalStep(run, k);
    } else {
      ReceivedStep(run, k);
    }
  }

  ghost predicate Causal(run: Run)
    requires Valid(run)
  {
    forall i: nat, k: nat :: k < |run| && Happened(run, i, k) ==> i < k && Precedes(ClockAt(run, i), ClockAt(run, k))
  }

  lemma {:induction false} HappenedFollows(run: Run, i: nat, k: nat)
    requires Valid(run) && Happened(run, i, k)
    requires forall j: nat :: j < |run| ==> LocalOk(run, j) && ReceivedOk(run, j)
    ensures i < k && Precedes(ClockAt(run, i), ClockAt(run, k))
    decreases k
  {
    hide ClockAt, LocalOk, ReceivedOk;
    HappenedIsEarlier(run, i, k);
    var j: nat :| Direct(run, j, k) && (i == j || Happened(run, i, j));
    DirectFollows(run, j, k);
    if i != j {
      HappenedFollows(run, i, j);
      PrecedesChains(ClockAt(run, i), ClockAt(run, j), ClockAt(run, k));
    }
  }

  /** In any run, clocks increase along causality exactly if every event finds the clocks it
      builds upon able to advance. */
  lemma CausalIff(run: Run)
    requires Valid(run)
    ensures Causal(run) <==> forall k: nat :: k < |run| ==> LocalOk(run, k) && ReceivedOk(run, k)
  {
    hide ClockAt, LocalOk, ReceivedOk, Precedes;
    if Causal(run) {
      forall k: nat | k < |run|
        ensures LocalOk(run, k) && ReceivedOk(run, k)
      {
        NothingMissing(run, k);
        if Previous(run, k).Some? {
          LocalStep(run, k);
          assert Direct(run, Previous(run, k).value, k);
        }
        if run[k].origin.Received? {
          ReceivedStep(run, k);
          assert Direct(run, run[k].origin.event, k);
        }
      }
    } else {
      var i: nat, k: nat :| k < |run| && Happened(run, i, k) && !(i < k && Precedes(ClockAt(run, i), ClockAt(run, k)));
      if forall j: nat :: j < |run| ==> LocalOk(run, j) && ReceivedOk(run, j) {
        HappenedFollows(run, i, k);
      }
    }
  }

  /** An event without predecessors misses nothing. */
  lemma NothingMissing(run: Run, k: nat)
    requires Valid(run) && k < |run|
    ensures Previous(run, k).None? ==> LocalOk(run, k)
    ensures !run[k].origin.Received? ==> ReceivedOk(run, k)
  {
  }

  ghost predicate Distinct(run: Run)
    requires Valid(run)
  {
    forall i: nat, k: nat :: i < k < |run| ==> ClockAt(run, i) != ClockAt(run, k)
  }

  /** One device's clocks increase. */
  lemma {:induction false} DeviceIncreases(run: Run, i: nat, k: nat)
    requires Valid(run) && i < k < |run| && run[i].device == run[k].device
    requires forall j: nat :: j < |run| ==> LocalOk(run, j)
    ensures Precedes(ClockAt(run, i), ClockAt(run, k))
    decreases k
  {
    hide ClockAt, LocalOk;
    var p := Previous(run, k);
    LocalStep(run, k);
    if p.value != i {
      DeviceIncreases(run, i, p.value);
      PrecedesChains(ClockAt(run, i), ClockAt(run, p.value), ClockAt(run, k));
    }
  }

  /** In any run, no clock is issued twice exactly if every event finds its device's own
      previous clock able to advance. */
  lemma DistinctIff(run: Run)
    requires Valid(run)
    ensures Distinct(run) <==> forall k: nat :: k < |run| ==> LocalOk(run, k)
  {
    hide LocalOk;
    if Distinct(run) {
      forall k: nat | k < |run|
        ensures LocalOk(run, k)
      {
        NothingMissing(run, k);
        if Previous(run, k).Some? {
          LocalStep(run, k);
        }
      }
    } else {
      var i: nat, k: nat :| i < k < |run| && ClockAt(run, i) == ClockAt(run, k);
      if forall j: nat :: j < |run| ==> LocalOk(run, j) {
        DeviceIncreases(run, i, k);
        assert false;
      }
    }
  }

  /** The receipt of a pushed clock with a saturated counter, whose wall time is not behind,
      is enough: until the physical clock has passed it, everything sent carries the same
      clock, starting with the clock of the receipt itself. */
  lemma PushedRepeats(pushed: Clock, device: u128, now: u64, sent: u64, again: u64)
    requires pushed.counter == COUNTER_MAX && now <= pushed.wall && sent <= pushed.wall && again <= pushed.wall
    ensures var run := [Event(device, now, Pushed(pushed)), Event(device, sent, Sent), Event(device, again, Sent)];
            && Valid(run) && !Distinct(run)
            && forall i: nat :: i < 3 ==> ClockAt(run, i) == pushed.(device := device)
  {
    hide ClockAt;
    var run := [Event(device, now, Pushed(pushed)), Event(device, sent, Sent), Event(device, again, Sent)];
    assert Previous(run, 0) == None && Previous(run, 1) == Some(0) && Previous(run, 2) == Some(1);
    ReceiptOfPushed(run, pushed);
    LocalStep(run, 1);
    LocalStep(run, 2);
  }

  lemma ReceiptOfPushed(run: Run, pushed: Clock)
    requires Valid(run) && run != [] && run[0].origin == Pushed(pushed) && pushed.counter == COUNTER_MAX
    requires run[0].now <= pushed.wall
    ensures ClockAt(run, 0) == pushed.(device := run[0].device)
  {
    assert Local(run, 0) == None && Incoming(run, 0) == Some(pushed);
  }

  // ---- counters ----

  /** Every clock pushed from outside counts to less than c. */
  predicate PushedBelow(run: Run, c: nat) {
    forall i :: 0 <= i < |run| && run[i].origin.Pushed? ==> run[i].origin.clock.counter < c
  }

  /** A counter exceeds those pushed by no more than the number of events; it is at most the
      number of earlier events if none is pushed. */
  lemma {:induction false} CounterBounded(run: Run, c: nat, i: nat)
    requires Valid(run) && PushedBelow(run, c) && i < |run|
    ensures ClockAt(run, i).counter <= c + i
    decreases i
  {
    hide Previous;
    var p := Previous(run, i);
    if p.Some? {
      CounterBounded(run, c, p.value);
    }
    if run[i].origin.Received? {
      CounterBounded(run, c, run[i].origin.event);
    }
  }

  /** In a run with room for its events no counter that is built upon is saturated. */
  lemma NoSaturation(run: Run, c: nat, k: nat)
    requires Valid(run) && PushedBelow(run, c) && c + |run| <= COUNTER_MAX + 1 && k < |run|
    ensures LocalOk(run, k) && ReceivedOk(run, k)
  {
    hide ClockAt;
    if Previous(run, k).Some? {
      CounterBounded(run, c, Previous(run, k).value);
    }
    if run[k].origin.Received? {
      CounterBounded(run, c, run[k].origin.event);
    }
  }

  /** Causally ordered events have strictly increasing clocks. */
  lemma Causality(run: Run, c: nat)
    requires Valid(run) && PushedBelow(run, c) && c + |run| <= COUNTER_MAX + 1
    ensures Causal(run)
  {
    hide ClockAt, LocalOk, ReceivedOk, Causal;
    forall k: nat | k < |run|
      ensures LocalOk(run, k) && ReceivedOk(run, k)
    {
      NoSaturation(run, c, k);
    }
    CausalIff(run);
  }

  /** All clocks of a run are distinct. */
  lemma AllDistinct(run: Run, c: nat)
    requires Valid(run) && PushedBelow(run, c) && c + |run| <= COUNTER_MAX + 1
    ensures Distinct(run)
  {
    hide ClockAt, LocalOk, ReceivedOk, Distinct;
    forall k: nat | k < |run|
      ensures LocalOk(run, k)
    {
      NoSaturation(run, c, k);
    }
    DistinctIff(run);
  }

  // ---- wall time ----

  ghost predicate InPast(run: Run, i: nat, k: nat) {
    i == k || Happened(run, i, k)
  }

  /** The physical time event i brings in: its device's, or that of a pushed clock. */
  function Reading(run: Run, i: nat): (wall: nat)
    requires i < |run|
  {
    if run[i].origin.Pushed? then Max(run[i].now, run[i].origin.clock.wall) else run[i].now
  }

  /** The wall time of a clock is the greatest reading in its causal past. */
  lemma {:induction false} WallIsMax(run: Run, k: nat)
    requires Valid(run) && k < |run|
    ensures forall i: nat :: i < |run| && InPast(run, i, k) ==> Reading(run, i) <= ClockAt(run, k).wall
    ensures exists i: nat :: i < |run| && InPast(run, i, k) && Reading(run, i) == ClockAt(run, k).wall
    decreases k
  {
    hide ClockAt, Reading;
    forall j: nat | Direct(run, j, k)
      ensures ClockAt(run, j).wall <= ClockAt(run, k).wall
    {
      WallGrows(run, j, k);
    }
    forall i: nat | i < |run| && InPast(run, i, k)
      ensures Reading(run, i) <= ClockAt(run, k).wall
    {
      if i == k {
        var own := WallFrom(run, k);
      } else {
        var j: nat :| Direct(run, j, k) && (i == j || Happened(run, i, j));
        WallIsMax(run, j);
        assert InPast(run, i, j);
      }
    }
    var j := WallFrom(run, k);
    if j == k {
      assert InPast(run, k, k);
    } else {
      WallIsMax(run, j);
      var i: nat :| i < |run| && InPast(run, i, j) && Reading(run, i) == ClockAt(run, j).wall;
      assert InPast(run, i, k);
    }
  }

  lemma WallGrows(run: Run, j: nat, k: nat)
    requires Valid(run) && Direct(run, j, k)
    ensures ClockAt(run, j).wall <= ClockAt(run, k).wall
  {
  }

  /** The wall time is the event's own reading or that of a direct predecessor's clock. */
  lemma WallFrom(run: Run, k: nat) returns (j: nat)
    requires Valid(run) && k < |run|
    ensures Reading(run, k) <= ClockAt(run, k).wall
    ensures (j == k && Reading(run, k) == ClockAt(run, k).wall)
            || (Direct(run, j, k) && ClockAt(run, j).wall == ClockAt(run, k).wall)
  {
    var p := Previous(run, k);
    var wall := ClockAt(run, k).wall;
    if wall == Reading(run, k) {
      j := k;
    } else if p.Some? && ClockAt(run, p.value).wall == wall {
      j := p.value;
    } else {
      SomewhereFrom(run, k);
      j := run[k].origin.event;
    }
  }

  lemma SomewhereFrom(run: Run, k: nat)
    requires Valid(run) && k < |run| && ClockAt(run, k).wall != Reading(run, k)
    requires Local(run, k).Some? ==> Local(run, k).value.wall != ClockAt(run, k).wall
    ensures run[k].origin.Received?
  {
    hide Previous;
    match run[k].origin
    case Sent =>
    case Received(_) =>
    case Pushed(_) =>
  }
}
