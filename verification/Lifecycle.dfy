/** Ownership of the startup task's lock and store, and the single close of the workspace. */
module Lifecycle {
  import opened Results

  /** The state under the lifecycle's mutex. */
  datatype Held = Held(stopping: bool, lock: bool, store: bool) {
    function Stopped(): (h: Held) {
      this.(stopping := true)
    }
  }

  // ---- the tasks and where they stand ----

  datatype Opener =
    | Setup | Acquiring | Acquired | LockRetained | Opening | Opened | StoreRetained
    | Installed | Recovering | Publishing | Over(ok: bool)

  datatype Outcome = Token | NoWorkspace | Broken

  datatype Drain = Idle | WaitingStartup | DrainingInk | FinishingSync | Closing | Minting | Drained(outcome: Outcome)

  datatype Exit = NotRequested | Stopping | WaitingRestore | WaitingDrain | Finished

  datatype Restore = NoRestore | Accepted | WaitingClose | Using | Restored

  /** The whole application. `storeOpen` says whether SQLite is open; `installed` whether the
      application state is; `ready` and `reported` what was published; `tokenLock` whether a
      token shares the application lock. */
  datatype App = App(
    held: Held,
    completed: Option<bool>,
    opener: Opener,
    storeOpen: bool,
    installed: bool,
    ready: bool,
    reported: bool,
    drain: Drain,
    drains: nat,
    finished: Option<Outcome>,
    tokenLock: bool,
    exit: Exit,
    restore: Restore)
  {
    /** A closed-workspace token exists. */
    predicate HasToken() {
      drain == Drained(Token)
    }

    /** Someone holds the application lock: the opener, the lifecycle, or a token. */
    predicate LockHeld() {
      opener.Acquired? || held.lock || tokenLock
    }

    /** The first close starts the drain. */
    function CloseBegun(): (a: App) {
      var stopped := this.(held := held.Stopped());
      if drain.Idle? then stopped.(drain := WaitingStartup, drains := drains + 1) else stopped
    }

    function Ended(ok: bool): (a: App) {
      this.(opener := Over(ok))
    }
  }

  const INITIAL: App :=
    App(Held(false, false, false), None, Setup, false, false, false, false, Idle, 0, None, false, NotRequested,
        NoRestore)

  // ---- steps ----

  datatype Step =
    | FailSetup | Spawn | Acquire(ok: bool) | RetainLock | CheckBeforeOpen | Open(ok: bool) | RetainStore
    | Install | CheckBeforeRecovery | Recover | Publish | PanicOpener | Supervise
    | RequestExit | BeginExit | ExitCloses | ExitReleases
    | AcceptRestore | RestoreCloses | RestoreResumes | RestoreEnds
    | StartupDone | InkDrained | SyncFinished | CloseStore(ok: bool) | Mint | PanicDrain | ReportDrain

  predicate Enabled(a: App, step: Step) {
    match step
    case FailSetup => a.opener.Setup? && a.completed.None?
    case Spawn => a.opener.Setup? && a.completed.None?
    case Acquire(_) => a.opener.Acquiring?
    case RetainLock => a.opener.Acquired?
    case CheckBeforeOpen => a.opener.LockRetained?
    case Open(_) => a.opener.Opening?
    case RetainStore => a.opener.Opened?
    case Install => a.opener.StoreRetained?
    case CheckBeforeRecovery => a.opener.Installed?
    case Recover => a.opener.Recovering?
    case Publish => a.opener.Publishing?
    case PanicOpener =>
      a.opener.Acquiring? || a.opener.LockRetained? || a.opener.Opening? || a.opener.StoreRetained?
      || a.opener.Installed? || a.opener.Recovering? || a.opener.Publishing?
    case Supervise => a.opener.Over? && a.completed.None?
    case RequestExit => a.exit.NotRequested?
    case BeginExit => a.exit.Stopping?
    case ExitCloses => a.exit.WaitingRestore? && (a.restore.NoRestore? || a.restore.Restored?)
    case ExitReleases => a.exit.WaitingDrain? && a.finished.Some?
    case AcceptRestore => a.restore.NoRestore? && (a.exit.NotRequested? || a.exit.Stopping?)
    case RestoreCloses => a.restore.Accepted?
    case RestoreResumes => a.restore.WaitingClose? && a.finished.Some?
    case RestoreEnds => a.restore.Using?
    case StartupDone => a.drain.WaitingStartup? && a.completed.Some?
    case InkDrained => a.drain.DrainingInk?
    case SyncFinished => a.drain.FinishingSync?
    case CloseStore(ok) => a.drain.Closing? && (!a.held.store && !a.installed ==> ok)
    case Mint => a.drain.Minting?
    case PanicDrain => !a.drain.Idle? && !a.drain.Drained?
    case ReportDrain => a.drain.Drained? && a.finished.None?
  }

  function After(a: App, step: Step): (r: App)
    requires Enabled(a, step)
  {
    match step
    case FailSetup => a.Ended(false).(completed := Some(false), reported := a.reported || !a.held.stopping)
    case Spawn => a.(opener := Acquiring)
    case Acquire(ok) => if ok then a.(opener := Acquired) else a.Ended(false)
    case RetainLock => a.(opener := LockRetained, held := a.held.(lock := true))
    case CheckBeforeOpen => if a.held.stopping then a.Ended(true) else a.(opener := Opening)
    case Open(ok) => if ok then a.(opener := Opened, storeOpen := true) else a.Ended(false)
    case RetainStore => a.(opener := StoreRetained, held := a.held.(store := true))
    case Install => a.(opener := Installed, installed := true)
    case CheckBeforeRecovery => if a.held.stopping then a.Ended(true) else a.(opener := Recovering)
    case Recover => a.(opener := Publishing)
    case Publish => a.Ended(true).(ready := a.ready || !a.held.stopping)
    case PanicOpener => a.Ended(false)
    case Supervise =>
      a.(completed := Some(a.opener.ok), reported := a.reported || (!a.opener.ok && !a.held.stopping))
    case RequestExit => a.(exit := Stopping, held := a.held.Stopped())
    case BeginExit => a.(exit := WaitingRestore)
    case ExitCloses => a.CloseBegun().(exit := WaitingDrain)
    case ExitReleases =>
      if a.finished.value.Broken? then a.(exit := Finished)
      else a.(exit := Finished, held := a.held.(lock := false))
    case AcceptRestore => a.(restore := Accepted)
    case RestoreCloses => a.CloseBegun().(restore := WaitingClose)
    case RestoreResumes => a.(restore := if a.finished.value.Token? then Using else Restored)
    case RestoreEnds => a.(restore := Restored)
    case StartupDone => a.(drain := DrainingInk)
    case InkDrained => a.(drain := FinishingSync)
    case SyncFinished => a.(drain := Closing)
    case CloseStore(ok) =>
      if !ok then a.(drain := Drained(Broken))
      else if a.held.store || a.installed then a.(drain := Minting, storeOpen := false)
      else a.(drain := Minting)
    case Mint =>
      if !a.installed then a.(drain := Drained(NoWorkspace))
      else if a.held.lock then a.(drain := Drained(Token), tokenLock := a.held.lock)
      else a.(drain := Drained(Broken))
    case PanicDrain => a.(drain := Drained(Broken))
    case ReportDrain => a.(finished := Some(a.drain.outcome))
  }

  ghost predicate Follows(a: App, r: App) {
    exists step :: Enabled(a, step) && r == After(a, step)
  }

  ghost predicate Run(states: seq<App>) {
    && states != [] && states[0] == INITIAL
    && forall i :: 0 <= i < |states| - 1 ==> Follows(states[i], states[i + 1])
  }

  // ---- the invariant ----

  predicate HoldsStore(o: Opener) {
    o.StoreRetained? || o.Installed? || o.Recovering? || o.Publishing?
  }

  predicate BeforeOpen(o: Opener) {
    o.Setup? || o.Acquiring? || o.Acquired? || o.LockRetained? || o.Opening?
  }

  /** The drain has confirmed that the store is closed. */
  predicate Confirmed(d: Drain) {
    d.Minting? || (d.Drained? && !d.outcome.Broken?)
  }

  predicate Inv(a: App) {
    && (a.completed.Some? ==> a.opener.Over?)
    && (BeforeOpen(a.opener) ==> !a.storeOpen && !a.held.store && !a.installed)
    && (a.opener.Opened? ==> a.storeOpen && !a.installed)
    && (HoldsStore(a.opener) ==> a.held.store)
    && (a.storeOpen ==> a.held.store || a.opener.Opened?)
    && (a.installed ==> a.held.store)
    && (a.opener.LockRetained? || a.opener.Opening? || a.opener.Opened? || HoldsStore(a.opener) ==> a.held.lock)
    && (!a.drain.Idle? && !a.drain.WaitingStartup? && !a.drain.Drained? ==> a.completed.Some?)
    && (Confirmed(a.drain) ==> a.completed.Some? && !a.storeOpen)
    && (a.finished.Some? ==> a.drain == Drained(a.finished.value))
    && (a.held.store && !a.exit.Finished? ==> a.held.lock)
    && (a.storeOpen ==> a.held.lock)
    && (a.exit.Finished? ==> a.finished.Some?)
    && a.drains == (if a.drain.Idle? then 0 else 1)
    && (a.drain.Idle? ==> !a.exit.WaitingDrain? && !a.exit.Finished? && !a.restore.WaitingClose?
                          && !a.restore.Using? && !a.restore.Restored?)
    && (!a.drain.Idle? || !a.exit.NotRequested? ==> a.held.stopping)
    && (a.restore.Using? ==> a.HasToken())
    && (a.HasToken() ==> a.installed)
    && (a.HasToken() <==> a.tokenLock)
  }

  // ---- the steps left ----

  function OpenerLeft(o: Opener): (n: nat) {
    match o
    case Setup => 11
    case Acquiring => 10
    case Acquired => 9
    case LockRetained => 8
    case Opening => 7
    case Opened => 6
    case StoreRetained => 5
    case Installed => 4
    case Recovering => 3
    case Publishing => 2
    case Over(_) => 1
  }

  function DrainLeft(d: Drain): (n: nat) {
    match d
    case Idle => 6
    case WaitingStartup => 5
    case DrainingInk => 4
    case FinishingSync => 3
    case Closing => 2
    case Minting => 1
    case Drained(_) => 0
  }

  function ExitLeft(e: Exit): (n: nat) {
    match e
    case NotRequested => 4
    case Stopping => 3
    case WaitingRestore => 2
    case WaitingDrain => 1
    case Finished => 0
  }

  function RestoreLeft(r: Restore): (n: nat) {
    match r
    case NoRestore => 4
    case Accepted => 3
    case WaitingClose => 2
    case Using => 1
    case Restored => 0
  }

  /** The steps left at most. */
  function Left(a: App): (n: nat) {
    OpenerLeft(a.opener) + DrainLeft(a.drain) + ExitLeft(a.exit) + RestoreLeft(a.restore)
    + (if a.completed.None? then 1 else 0) + (if a.finished.None? then 1 else 0)
  }

  /** What every step does: it keeps the invariant, uses up a step, publishes nothing after
      the stop, and takes back neither a token nor its share of the lock. */
  ghost predicate Good(a: App, r: App) {
    && Inv(r) && Left(r) < Left(a) && Quiet(a, r)
    && (a.HasToken() ==> r.HasToken()) && (a.tokenLock ==> r.tokenLock)
  }

  predicate Quiet(a: App, r: App) {
    a.held.stopping ==> r.held.stopping && r.ready == a.ready && r.reported == a.reported
  }

  lemma AcquireKeeps(a: App, ok: bool)
    requires Inv(a) && Enabled(a, Acquire(ok))
    ensures Good(a, After(a, Acquire(ok)))
  {
  }

  predicate SetupStep(step: Step) {
    step.FailSetup? || step.Spawn?
  }

  lemma SetupKeeps(a: App, step: Step)
    requires Inv(a) && Enabled(a, step) && SetupStep(step)
    ensures Good(a, After(a, step))
  {
  }

  predicate CheckStep(step: Step) {
    step.RetainLock? || step.CheckBeforeOpen? || step.CheckBeforeRecovery?
  }

  lemma CheckKeeps(a: App, step: Step)
    requires Inv(a) && Enabled(a, step) && CheckStep(step)
    ensures Good(a, After(a, step))
  {
  }

  predicate OpenStep(step: Step) {
    step.Open? || step.RetainStore? || step.Install?
  }

  lemma OpenKeeps(a: App, step: Step)
    requires Inv(a) && Enabled(a, step) && OpenStep(step)
    ensures Good(a, After(a, step))
  {
  }

  predicate PublishStep(step: Step) {
    step.Recover? || step.Publish?
  }

  lemma PublishKeeps(a: App, step: Step)
    requires Inv(a) && Enabled(a, step) && PublishStep(step)
    ensures Good(a, After(a, step))
  {
  }

  predicate OverStep(step: Step) {
    step.PanicOpener? || step.Supervise?
  }

  lemma OverKeeps(a: App, step: Step)
    requires Inv(a) && Enabled(a, step) && OverStep(step)
    ensures Good(a, After(a, step))
  {
  }

  predicate RequestStep(step: Step) {
    step.RequestExit? || step.BeginExit?
  }

  lemma RequestKeeps(a: App, step: Step)
    requires Inv(a) && Enabled(a, step) && RequestStep(step)
    ensures Good(a, After(a, step))
  {
  }

  lemma ExitClosesKeeps(a: App)
    requires Inv(a) && Enabled(a, ExitCloses)
    ensures Good(a, After(a, ExitCloses))
  {
  }

  lemma RestoreClosesKeeps(a: App)
    requires Inv(a) && Enabled(a, RestoreCloses)
    ensures Good(a, After(a, RestoreCloses))
  {
  }

  predicate ReleaseStep(step: Step) {
    step.ExitReleases?
  }

  lemma ReleaseKeeps(a: App, step: Step)
    requires Inv(a) && Enabled(a, step) && ReleaseStep(step)
    ensures Good(a, After(a, step))
  {
  }

  predicate RestoreStep(step: Step) {
    step.AcceptRestore? || step.RestoreResumes? || step.RestoreEnds?
  }

  lemma RestoreKeeps(a: App, step: Step)
    requires Inv(a) && Enabled(a, step) && RestoreStep(step)
    ensures Good(a, After(a, step))
  {
  }

  predicate DrainStep(step: Step) {
    step.StartupDone? || step.InkDrained? || step.SyncFinished? || step.CloseStore?
  }

  lemma DrainKeeps(a: App, step: Step)
    requires Inv(a) && Enabled(a, step) && DrainStep(step)
    ensures Good(a, After(a, step))
  {
  }

  predicate EndStep(step: Step) {
    step.Mint? || step.PanicDrain? || step.ReportDrain?
  }

  lemma EndKeeps(a: App, step: Step)
    requires Inv(a) && Enabled(a, step) && EndStep(step)
    ensures Good(a, After(a, step))
  {
  }

  lemma StepKeeps(a: App, step: Step)
    requires Inv(a) && Enabled(a, step)
    ensures Good(a, After(a, step))
  {
    hide Inv, Good, After, Enabled;
    if step.Acquire? {
      AcquireKeeps(a, step.ok);
    } else if SetupStep(step) {
      SetupKeeps(a, step);
    } else if CheckStep(step) {
      CheckKeeps(a, step);
    } else if OpenStep(step) {
      OpenKeeps(a, step);
    } else if PublishStep(step) {
      PublishKeeps(a, step);
    } else if OverStep(step) {
      OverKeeps(a, step);
    } else if RequestStep(step) {
      RequestKeeps(a, step);
    } else if step.ExitCloses? {
      ExitClosesKeeps(a);
    } else if step.RestoreCloses? {
      RestoreClosesKeeps(a);
    } else if ReleaseStep(step) {
      ReleaseKeeps(a, step);
    } else if RestoreStep(step) {
      RestoreKeeps(a, step);
    } else if DrainStep(step) {
      DrainKeeps(a, step);
    } else {
      EndKeeps(a, step);
    }
  }

  lemma {:induction false} RunKeeps(states: seq<App>, i: nat)
    requires Run(states) && i < |states|
    ensures Inv(states[i])
  {
    hide Inv, After, Enabled;
    if i == 0 {
      assert Inv(INITIAL) by {
        InitialInv();
      }
    } else {
      RunKeeps(states, i - 1);
      assert Follows(states[i - 1], states[i - 1 + 1]);
      var step :| Enabled(states[i - 1], step) && states[i] == After(states[i - 1], step);
      StepKeeps(states[i - 1], step);
    }
  }

  lemma InitialInv()
    ensures Inv(INITIAL)
  {
  }

  // ---- safety over every run ----

  /** The store is open only while the application lock is held; a token exists, and a
      restore uses one, only with the startup over and the store closed; the token has its
      own share of the lock, so the lock is held even after the lifecycle has released its
      share; and at most one drain ever runs. */
  lemma Ownership(states: seq<App>, i: nat)
    requires Run(states) && i < |states|
    ensures states[i].storeOpen ==> states[i].held.lock
    ensures states[i].HasToken() ==> states[i].opener.Over? && !states[i].storeOpen && states[i].tokenLock && states[i].LockHeld()
    ensures states[i].restore.Using? ==> states[i].HasToken() && states[i].LockHeld()
    ensures states[i].drains <= 1
  {
    RunKeeps(states, i);
  }

  lemma TokenMeansClosed(a: App)
    requires Inv(a) && a.HasToken()
    ensures !a.storeOpen && a.tokenLock
  {
  }

  /** Once the token exists it goes on existing with its share of the lock, and the store
      stays closed. */
  lemma {:induction false} TokenIsForGood(states: seq<App>, i: nat, j: nat)
    requires Run(states) && i <= j < |states| && states[i].HasToken()
    ensures states[j].HasToken() && states[j].tokenLock && !states[j].storeOpen
    decreases j
  {
    hide After, Enabled, App.HasToken;
    RunKeeps(states, j);
    if i < j {
      TokenIsForGood(states, i, j - 1);
      RunKeeps(states, j - 1);
      assert Follows(states[j - 1], states[j - 1 + 1]);
      var step :| Enabled(states[j - 1], step) && states[j] == After(states[j - 1], step);
      StepKeeps(states[j - 1], step);
    }
    TokenMeansClosed(states[j]);
  }

  /** Nothing is published after the stop: neither readiness and sync nor a failure. */
  lemma {:induction false} NothingPublishedAfterStop(states: seq<App>, i: nat, j: nat)
    requires Run(states) && i <= j < |states| && states[i].held.stopping
    ensures states[j].held.stopping
    ensures states[j].ready == states[i].ready && states[j].reported == states[i].reported
    decreases j
  {
    hide Inv, After, Enabled;
    if i < j {
      NothingPublishedAfterStop(states, i, j - 1);
      RunKeeps(states, j - 1);
      assert Follows(states[j - 1], states[j - 1 + 1]);
      var step :| Enabled(states[j - 1], step) && states[j] == After(states[j - 1], step);
      StepKeeps(states[j - 1], step);
    }
  }

  /** The drain of an installed workspace whose store it closed always finds the lock: the
      error for a missing lock cannot occur. */
  lemma LockIsThereToMint(states: seq<App>, i: nat)
    requires Run(states) && i < |states| && states[i].drain.Minting? && states[i].installed
    ensures states[i].held.lock && After(states[i], Mint).HasToken()
  {
    RunKeeps(states, i);
  }

  // ---- progress ----

  /** An exit that was requested and has not finished can always go on, by a step that is
      not a failure. */
  lemma ExitGoesOn(a: App) returns (step: Step)
    requires Inv(a) && !a.exit.NotRequested? && !a.exit.Finished?
    ensures Enabled(a, step) && !step.PanicOpener? && !step.PanicDrain? && !step.FailSetup?
  {
    if a.exit.Stopping? {
      step := BeginExit;
    } else if a.exit.WaitingRestore? && (a.restore.NoRestore? || a.restore.Restored?) {
      step := ExitCloses;
    } else if a.restore.Accepted? {
      step := RestoreCloses;
    } else if a.restore.Using? {
      step := RestoreEnds;
    } else if a.finished.Some? {
      step := if a.exit.WaitingDrain? then ExitReleases else RestoreResumes;
    } else {
      step := DrainGoesOn(a);
    }
  }

  lemma DrainGoesOn(a: App) returns (step: Step)
    requires Inv(a) && !a.drain.Idle? && a.finished.None?
    ensures Enabled(a, step) && !step.PanicOpener? && !step.PanicDrain? && !step.FailSetup?
  {
    match a.drain
    case WaitingStartup => step := if a.completed.Some? then StartupDone else OpenerGoesOn(a);
    case DrainingInk => step := InkDrained;
    case FinishingSync => step := SyncFinished;
    case Closing => step := CloseStore(true);
    case Minting => step := Mint;
    case Drained(_) => step := ReportDrain;
  }

  function OpenerGoesOn(a: App): (step: Step)
    ensures a.completed.None? ==> Enabled(a, step) && !step.PanicOpener? && !step.PanicDrain? && !step.FailSetup?
  {
    match a.opener
    case Setup => Spawn
    case Acquiring => Acquire(true)
    case Acquired => RetainLock
    case LockRetained => CheckBeforeOpen
    case Opening => Open(true)
    case Opened => RetainStore
    case StoreRetained => Install
    case Installed => CheckBeforeRecovery
    case Recovering => Recover
    case Publishing => Publish
    case Over(_) => Supervise
  }

  /** Every run is finite: it has at most 28 states. */
  lemma {:induction false} RunsAreFinite(states: seq<App>, i: nat)
    requires Run(states) && i < |states|
    ensures Left(states[i]) + i <= Left(INITIAL) == 27
    decreases i
  {
    hide Inv, After, Enabled, Left;
    if i == 0 {
      assert Left(INITIAL) == 27 by {
        LeftAtStart();
      }
    } else {
      RunsAreFinite(states, i - 1);
      RunKeeps(states, i - 1);
      assert Follows(states[i - 1], states[i - 1 + 1]);
      var step :| Enabled(states[i - 1], step) && states[i] == After(states[i - 1], step);
      StepKeeps(states[i - 1], step);
    }
  }

  lemma LeftAtStart()
    ensures Left(INITIAL) == 27
  {
  }

  ghost predicate Stuck(a: App) {
    forall step :: !Enabled(a, step)
  }

  /** So a run that cannot go on and in which an exit was requested has finished it. */
  lemma ExitFinishes(states: seq<App>)
    requires Run(states) && !states[|states| - 1].exit.NotRequested?
    requires Stuck(states[|states| - 1])
    ensures states[|states| - 1].exit.Finished?
  {
    var last := states[|states| - 1];
    RunKeeps(states, |states| - 1);
    if !last.exit.Finished? {
      var step := ExitGoesOn(last);
    }
  }

  // ---- the two shared objects ----

  class StartupLifecycle {
    var held: Held
    var completed: Option<bool>

    /** The object is in the state it has in the application. */
    predicate Shows(a: App)
      reads this
    {
      held == a.held && completed == a.completed
    }

    constructor ()
      ensures Shows(INITIAL)
    {
      held, completed := Held(false, false, false), None;
    }

    method RetainApplicationLock()
      modifies this
      ensures held == old(held).(lock := true) && completed == old(completed)
      ensures forall a: App :: old(Shows(a)) && Enabled(a, RetainLock) ==> Shows(After(a, RetainLock))
    {
      held := held.(lock := true);
    }

    method RetainStore()
      modifies this
      ensures held == old(held).(store := true) && completed == old(completed)
      ensures forall a: App :: old(Shows(a)) && Enabled(a, Step.RetainStore) ==> Shows(After(a, Step.RetainStore))
    {
      held := held.(store := true);
    }

    /** Called by an exit whose drain did not break. */
    method ReleaseApplicationLock()
      modifies this
      ensures held == old(held).(lock := false) && completed == old(completed)
      ensures forall a: App :: old(Shows(a)) && Enabled(a, ExitReleases) && !a.finished.value.Broken? ==>
                Shows(After(a, ExitReleases))
    {
      held := held.(lock := false);
    }

    method Stop()
      modifies this
      ensures held == old(held).Stopped() && completed == old(completed)
      ensures forall a: App :: old(Shows(a)) && Enabled(a, RequestExit) ==> Shows(After(a, RequestExit))
    {
      held := held.(stopping := true);
    }

    /** The gate of both publications: the action runs exactly while nothing has stopped, and
        what becomes ready or is reported is what the gate let through. */
    method WhileStarting<T>(action: () -> T) returns (r: Option<T>)
      ensures r == if held.stopping then None else Some(action())
      ensures forall a: App :: Shows(a) && Enabled(a, Publish) ==> After(a, Publish).ready == (a.ready || r.Some?)
      ensures forall a: App :: Shows(a) && Enabled(a, Supervise) ==>
                After(a, Supervise).reported == (a.reported || (!a.opener.ok && r.Some?))
    {
      if held.stopping {
        return None;
      }
      r := Some(action());
    }

    /** The registration reports the startup's outcome, or a failure when the setup drops it
        unfinished. */
    method Finish(outcome: bool)
      modifies this
      ensures completed == Some(outcome) && held == old(held)
      ensures forall a: App :: old(Shows(a)) && Enabled(a, Supervise) && outcome == a.opener.ok ==>
                Shows(After(a, Supervise))
      ensures forall a: App :: old(Shows(a)) && Enabled(a, FailSetup) && !outcome ==> Shows(After(a, FailSetup))
    {
      completed := Some(outcome);
    }
  }

  class WorkspaceShutdown {
    var started: bool
    var finished: Option<Outcome>

    predicate Shows(a: App)
      reads this
    {
      started == !a.drain.Idle? && finished == a.finished
    }

    constructor ()
      ensures Shows(INITIAL)
    {
      started, finished := false, None;
    }

    /** Only the first caller starts the drain. */
    method BeginClose() returns (first: bool)
      modifies this
      ensures started && finished == old(finished) && first == !old(started)
      ensures forall a: App :: old(Shows(a)) ==>
                Shows(a.CloseBegun()) && a.CloseBegun().drains == a.drains + if first then 1 else 0
    {
      if started {
        return false;
      }
      started, first := true, true;
    }

    /** An exit or a restore begins to close: the startup is stopped first. */
    method Begin(startup: StartupLifecycle)
      modifies this, startup
      ensures forall a: App, step :: old(startup.Shows(a) && Shows(a)) && Closes(step) && Enabled(a, step) ==>
                startup.Shows(After(a, step)) && Shows(After(a, step))
    {
      startup.Stop();
      var first := BeginClose();
    }

    /** The supervisor of the drain passes its outcome on. */
    method Report(outcome: Outcome)
      modifies this
      ensures started == old(started) && finished == Some(outcome)
      ensures forall a: App :: old(Shows(a)) && Enabled(a, ReportDrain) && outcome == a.drain.outcome ==>
                Shows(After(a, ReportDrain))
    {
      finished := Some(outcome);
    }
  }

  predicate Closes(step: Step) {
    step.ExitCloses? || step.RestoreCloses?
  }
}
