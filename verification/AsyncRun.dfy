/**
 The asynchronous drive protocol of one Run (src/dage.cpp: execute_async, the
 continuation sections of execute_step, AsyncExecutorCompletion, the timer
 callbacks and Run::cancel).

 Every mutex-protected section is one action. Executors, timers, the scheduler and
 user threads are the environment: any enabled action may come next. The scheduler
 accepts every submission. Batches of a parallel node are in ParallelNode; subflow
 continuations, runs that mix the kinds, and emptied closures are in Continuations.
 */
module AsyncRun {
  import opened Base

  /** What a continuation section can leave in async_result. */
  datatype Outcome<T> = Final(value: T) | TimedOut | RetryReady

  /** Where the drive that owns drive_mutex stands in execute_step. */
  datatype Pc = Top | Consuming | Body | Started

  /**
   Fields of Run::Impl (`pending` to `resumable`), the threads at work, the
   wakers, and three histories: generations written to async_result, callback
   registrations and callback deliveries.

   `posting` counts threads about to submit a drive, `queued` submitted drives,
   `waiting` drives that set `driving` and want drive_mutex, `endedPending` and
   `endedDone` drives that left execute_step but not yet their closing section.
   */
  datatype Run<T> = Run(
    pending: bool, ready: bool, generation: nat, result: Option<Outcome<T>>,
    driving: bool, registered: bool, delivered: bool, resumable: bool, cancelled: bool,
    registering: nat, cancelling: nat,
    posting: nat, queued: nat, waiting: nat, inside: Option<Pc>, endedPending: nat, endedDone: nat,
    open: set<nat>, inFlight: map<nat, T>, retryTimer: set<nat>, timeoutTimer: set<nat>,
    writes: seq<nat>, registrations: nat, deliveries: nat)

  datatype Action<T> =
    // user threads
    | RegisterBegin | RegisterEnd | CancelBegin | CancelEnd
    // scheduler
    | Post | BeginDrive | EnterStep
    // inside execute_step
    | LoopTop | Abort | ConsumeFinal | ConsumeRetry | StartAsync(timeout: bool) | ReturnPending
    | FinishNode | SyncTimeout | FinishRun
    // closing section of a drive
    | ClosePending | CloseDone
    // environment
    | Complete(generation: nat, value: T) | CompletionSection(generation: nat)
    | TimeoutSection(generation: nat) | RetrySection(generation: nat)

  function Initial<T>(): Run<T> {
    Run(false, false, 0, None, false, false, false, false, false,
        0, 0, 0, 0, 0, None, 0, 0, {}, map[], {}, {}, [], 0, 0)
  }

  predicate Active<T>(s: Run<T>) {
    s.registered && !s.delivered
  }

  predicate Enabled<T>(s: Run<T>, a: Action<T>) {
    match a
    case RegisterBegin => !Active(s)
    case RegisterEnd => s.registering > 0
    case CancelBegin => true
    case CancelEnd => s.cancelling > 0
    case Post => s.posting > 0
    case BeginDrive => s.queued > 0
    case EnterStep => s.waiting > 0 && s.inside.None?
    case LoopTop => s.inside == Some(Top)
    case Abort => s.inside == Some(Consuming) || s.inside == Some(Body)
    case ConsumeFinal => s.inside == Some(Consuming)
    case ConsumeRetry => s.inside == Some(Consuming)
    case StartAsync(_) => s.inside == Some(Body)
    case ReturnPending => s.inside == Some(Started)
    case FinishNode => s.inside == Some(Body)
    case SyncTimeout => s.inside == Some(Body)
    case FinishRun => s.inside == Some(Body)
    case ClosePending => s.endedPending > 0
    case CloseDone => s.endedDone > 0
    case Complete(g, _) => g in s.open
    case CompletionSection(g) => g in s.inFlight
    case TimeoutSection(g) => g in s.timeoutTimer
    case RetrySection(g) => g in s.retryTimer
  }

  /** The guarded write shared by completions and timers. */
  function Deliverable<T>(s: Run<T>, g: nat, outcome: Outcome<T>): Run<T> {
    if !s.pending || s.ready || s.generation != g then s
    else s.(result := Some(outcome), ready := true, writes := s.writes + [g],
            posting := if !s.driving && s.resumable then s.posting + 1 else s.posting)
  }

  function LoopTopOf<T>(s: Run<T>): Run<T> {
    if s.cancelled then s.(inside := None, endedDone := s.endedDone + 1)
    else if !s.pending then s.(inside := Some(Body))
    else if !s.ready then s.(inside := None, endedPending := s.endedPending + 1)
    else if s.result == Some(RetryReady) then s.(inside := Some(Body), pending := false, ready := false)
    else s.(inside := Some(Consuming))
  }

  function CloseDoneOf<T>(s: Run<T>): Run<T>
    requires s.endedDone > 0
  {
    var t := s.(driving := false, endedDone := s.endedDone - 1);
    if s.delivered then t
    else t.(pending := false, ready := false,
            retryTimer := s.retryTimer - {s.generation}, timeoutTimer := s.timeoutTimer - {s.generation},
            delivered := true, resumable := false, deliveries := s.deliveries + 1)
  }

  function Apply<T>(s: Run<T>, a: Action<T>): Run<T>
    requires Enabled(s, a)
  {
    match a
    case RegisterBegin =>
      s.(registered := true, delivered := false, registering := s.registering + 1,
         registrations := s.registrations + 1)
    case RegisterEnd => s.(resumable := true, registering := s.registering - 1, posting := s.posting + 1)
    case CancelBegin => s.(cancelled := true, cancelling := s.cancelling + 1)
    case CancelEnd =>
      s.(cancelling := s.cancelling - 1,
         retryTimer := s.retryTimer - {s.generation}, timeoutTimer := s.timeoutTimer - {s.generation},
         posting := if s.resumable then s.posting + 1 else s.posting)
    case Post => s.(posting := s.posting - 1, queued := s.queued + 1)
    case BeginDrive => s.(queued := s.queued - 1, waiting := s.waiting + 1, driving := true)
    case EnterStep => s.(waiting := s.waiting - 1, inside := Some(Top))
    case LoopTop => LoopTopOf(s)
    case Abort => s.(inside := None, endedDone := s.endedDone + 1)
    case ConsumeFinal => s.(inside := Some(Body), pending := false, ready := false)
    case ConsumeRetry =>
      s.(inside := None, endedPending := s.endedPending + 1, ready := false,
         generation := s.generation + 1, retryTimer := s.retryTimer + {s.generation + 1})
    case StartAsync(timeout) =>
      s.(inside := Some(Started), pending := true, ready := false, generation := s.generation + 1,
         open := s.open + {s.generation + 1},
         timeoutTimer := if timeout then s.timeoutTimer + {s.generation + 1} else s.timeoutTimer)
    case ReturnPending => s.(inside := None, endedPending := s.endedPending + 1)
    case FinishNode => s.(inside := Some(Top))
    case SyncTimeout => s.(inside := Some(Top), cancelled := true)
    case FinishRun => s.(inside := None, endedDone := s.endedDone + 1)
    case ClosePending =>
      s.(driving := false, endedPending := s.endedPending - 1,
         posting := if s.ready then s.posting + 1 else s.posting)
    case CloseDone => CloseDoneOf(s)
    case Complete(g, v) => s.(open := s.open - {g}, inFlight := s.inFlight[g := v])
    case CompletionSection(g) =>
      Deliverable(s.(inFlight := s.inFlight - {g}), g, Final(s.inFlight[g]))
    case TimeoutSection(g) => Deliverable(s.(timeoutTimer := s.timeoutTimer - {g}), g, TimedOut)
    case RetrySection(g) => Deliverable(s.(retryTimer := s.retryTimer - {g}), g, RetryReady)
  }

  ghost predicate IsStep<T(!new)>(states: seq<Run<T>>, actions: seq<Action<T>>, i: nat)
    requires |states| == |actions| + 1 && i < |actions|
  {
    Enabled(states[i], actions[i]) && states[i + 1] == Apply(states[i], actions[i])
  }

  ghost predicate IsHistory<T(!new)>(states: seq<Run<T>>, actions: seq<Action<T>>) {
    && |states| == |actions| + 1
    && states[0] == Initial()
    && forall i :: 0 <= i < |actions| ==> IsStep(states, actions, i)
  }

  // ---------------------------------------------------------------- invariants

  /** Generation fence: writes go to strictly rising generations, and the current wait is unwritten. */
  ghost predicate GenerationFence<T>(s: Run<T>) {
    && (forall i, j :: 0 <= i < j < |s.writes| ==> s.writes[i] < s.writes[j])
    && (forall i :: 0 <= i < |s.writes| ==> s.writes[i] <= s.generation)
    && (s.pending && !s.ready ==> forall i :: 0 <= i < |s.writes| ==> s.writes[i] < s.generation)
  }

  lemma WriteKeepsFence<T>(s: Run<T>, g: nat, outcome: Outcome<T>)
    requires GenerationFence(s)
    ensures GenerationFence(Deliverable(s, g, outcome))
  {
  }

  lemma FenceStep<T(!new)>(s: Run<T>, a: Action<T>)
    requires GenerationFence(s) && Enabled(s, a)
    ensures GenerationFence(Apply(s, a))
  {
    if Outside(a) {
      FenceOutside(s, a);
    } else {
      FenceDrive(s, a);
    }
  }

  lemma FenceOutside<T(!new)>(s: Run<T>, a: Action<T>)
    requires GenerationFence(s) && Enabled(s, a) && Outside(a)
    ensures GenerationFence(Apply(s, a))
  {
    match a
    case CompletionSection(g) => WriteKeepsFence(s.(inFlight := s.inFlight - {g}), g, Final(s.inFlight[g]));
    case TimeoutSection(g) => WriteKeepsFence(s.(timeoutTimer := s.timeoutTimer - {g}), g, TimedOut);
    case RetrySection(g) => WriteKeepsFence(s.(retryTimer := s.retryTimer - {g}), g, RetryReady);
    case _ =>
  }

  lemma FenceDrive<T(!new)>(s: Run<T>, a: Action<T>)
    requires GenerationFence(s) && Enabled(s, a) && !Outside(a)
    ensures GenerationFence(Apply(s, a))
  {
    assert Apply(s, a).writes == s.writes;
  }

  function Count(b: bool): nat { if b then 1 else 0 }

  /** Drives that exist in any form. */
  function Drives<T>(s: Run<T>): nat {
    s.registering + s.posting + s.queued + s.waiting + Count(s.inside.Some?) + s.endedPending + s.endedDone
  }

  /** Every registration was delivered once, or is the active one. */
  ghost predicate CallbackBooks<T>(s: Run<T>) {
    && s.registrations == s.deliveries + (if Active(s) then 1 else 0)
    && (s.delivered || s.resumable || s.endedDone > 0 || Drives(s) > 0 ==> s.registered)
  }

  /** Steps of other threads: completions, timers, cancellation. */
  predicate Outside<T>(a: Action<T>) {
    a.CancelBegin? || a.CancelEnd? || a.Complete? || a.CompletionSection? || a.TimeoutSection? || a.RetrySection?
  }

  lemma CallbackOutside<T(!new)>(s: Run<T>, a: Action<T>)
    requires CallbackBooks(s) && Enabled(s, a) && Outside(a)
    ensures CallbackBooks(Apply(s, a))
  {
  }

  /** Steps that open or close a drive. */
  predicate Bracketing<T>(a: Action<T>) {
    a.RegisterBegin? || a.RegisterEnd? || a.Post? || a.BeginDrive? || a.EnterStep? || a.ClosePending? || a.CloseDone?
  }

  lemma CallbackBracket<T(!new)>(s: Run<T>, a: Action<T>)
    requires CallbackBooks(s) && Enabled(s, a) && Bracketing(a)
    ensures CallbackBooks(Apply(s, a))
  {
  }

  lemma CallbackInside<T(!new)>(s: Run<T>, a: Action<T>)
    requires CallbackBooks(s) && Enabled(s, a) && !Outside(a) && !Bracketing(a)
    ensures CallbackBooks(Apply(s, a))
  {
  }

  lemma CallbackStep<T(!new)>(s: Run<T>, a: Action<T>)
    requires CallbackBooks(s) && Enabled(s, a)
    ensures CallbackBooks(Apply(s, a))
  {
    if Outside(a) {
      CallbackOutside(s, a);
    } else if Bracketing(a) {
      CallbackBracket(s, a);
    } else {
      CallbackInside(s, a);
    }
  }

  /** Someone holds the wake-up of the current generation. */
  ghost predicate HasWaker<T>(s: Run<T>) {
    s.generation in s.open || s.generation in s.inFlight || s.generation in s.retryTimer
  }

  /**
   Before any cancellation there is exactly one drive while a callback is awaited,
   or none and the run sleeps on an unfinished generation that has a waker.
   */
  ghost predicate OneDrive<T>(s: Run<T>) {
    && s.cancelling == 0
    && (!Active(s) ==> Drives(s) == 0 && !s.pending)
    && (Active(s) && Drives(s) == 0 ==> s.pending && !s.ready)
    && Drives(s) <= 1
    && (Active(s) && s.registering == 0 ==> s.resumable)
    && (s.driving <==> s.waiting + Count(s.inside.Some?) + s.endedPending + s.endedDone == 1)
    && (s.posting + s.queued + s.registering == 1 ==> !s.pending || s.ready)
    && (s.endedPending == 1 || s.inside == Some(Started) ==> s.pending)
    && (s.inside == Some(Body) ==> !s.pending)
    && (s.inside == Some(Consuming) ==> s.pending && s.ready)
    && (s.pending && !s.ready ==> HasWaker(s))
  }

  lemma OneDriveStep<T(!new)>(s: Run<T>, a: Action<T>)
    requires !s.cancelled && OneDrive(s) && GenerationFence(s) && Enabled(s, a) && !Apply(s, a).cancelled
    ensures OneDrive(Apply(s, a))
  {
    if Outside(a) {
      OneDriveOutside(s, a);
    } else {
      OneDriveDrive(s, a);
    }
  }

  lemma OneDriveOutside<T(!new)>(s: Run<T>, a: Action<T>)
    requires !s.cancelled && OneDrive(s) && GenerationFence(s) && Enabled(s, a) && !Apply(s, a).cancelled && Outside(a)
    ensures OneDrive(Apply(s, a))
  {
  }

  lemma OneDriveDrive<T(!new)>(s: Run<T>, a: Action<T>)
    requires !s.cancelled && OneDrive(s) && GenerationFence(s) && Enabled(s, a) && !Apply(s, a).cancelled && !Outside(a)
    ensures OneDrive(Apply(s, a))
  {
  }

  /** Threads that will still test the cancellation flag, or already obeyed it. */
  function Deciders<T>(s: Run<T>): nat {
    s.registering + s.cancelling + s.posting + s.queued + s.waiting
    + Count(s.inside == Some(Top)) + s.endedDone
  }

  /** After a cancellation an awaited callback always has a thread that will deliver it. */
  ghost predicate CancelDelivers<T>(s: Run<T>) {
    && (Active(s) ==> Deciders(s) >= 1)
    && (Active(s) && s.registering == 0 ==> s.resumable)
  }

  lemma CancelStep<T(!new)>(s: Run<T>, a: Action<T>)
    requires s.cancelled && CancelDelivers(s) && Enabled(s, a)
    ensures CancelDelivers(Apply(s, a))
  {
  }

  ghost predicate Inv<T>(s: Run<T>) {
    && GenerationFence(s)
    && CallbackBooks(s)
    && (if s.cancelled then CancelDelivers(s) else OneDrive(s))
  }

  lemma ActionKeepsInv<T(!new)>(s: Run<T>, a: Action<T>)
    requires Inv(s) && Enabled(s, a)
    ensures Inv(Apply(s, a))
  {
    FenceStep(s, a);
    CallbackStep(s, a);
    if s.cancelled {
      CancelStep(s, a);
    } else if Apply(s, a).cancelled {
      assert a.CancelBegin? || a.SyncTimeout?;
    } else {
      OneDriveStep(s, a);
    }
  }

  lemma {:induction false} HistoryInv<T(!new)>(states: seq<Run<T>>, actions: seq<Action<T>>, i: nat)
    requires IsHistory(states, actions) && i < |states|
    ensures Inv(states[i])
  {
    if i > 0 {
      HistoryInv(states, actions, i - 1);
      assert IsStep(states, actions, i - 1);
      ActionKeepsInv(states[i - 1], actions[i - 1]);
    }
  }

  // ---------------------------------------------------------------- theorems

  /** Each generation's result is written at most once, and never after a newer one. */
  lemma WrittenAtMostOnce<T(!new)>(states: seq<Run<T>>, actions: seq<Action<T>>, i: nat, j: nat, k: nat)
    requires IsHistory(states, actions) && i < |states| && j < k < |states[i].writes|
    ensures states[i].writes[j] < states[i].writes[k] <= states[i].generation
  {
    HistoryInv(states, actions, i);
  }

  /** What the drive loop reads of the continuation. */
  function Visible<T>(s: Run<T>): (bool, bool, nat, Option<Outcome<T>>) {
    (s.pending, s.ready, s.generation, s.result)
  }

  /**
   A completion or timer of a generation that is over, or that lost its race,
   changes nothing the run can see and wakes nobody.
   */
  lemma LateWakersAreIgnored<T(!new)>(states: seq<Run<T>>, actions: seq<Action<T>>, i: nat)
    requires IsHistory(states, actions) && i < |actions|
    requires actions[i].CompletionSection? || actions[i].TimeoutSection? || actions[i].RetrySection?
    requires actions[i].generation < states[i].generation || actions[i].generation in states[i].writes
    ensures Visible(states[i + 1]) == Visible(states[i])
    ensures Drives(states[i + 1]) == Drives(states[i])
  {
    HistoryInv(states, actions, i);
    assert IsStep(states, actions, i);
  }

  // What a result says is what happened.

  ghost predicate Completed<T(!new)>(actions: seq<Action<T>>, i: nat, g: nat, v: T) {
    exists k :: 0 <= k < i && k < |actions| && actions[k] == Complete(g, v)
  }

  /** Before `i`, an executor was started as generation `g` with a timeout. */
  ghost predicate Timed<T(!new)>(states: seq<Run<T>>, actions: seq<Action<T>>, i: nat, g: nat)
    requires |states| == |actions| + 1
  {
    exists k :: 0 <= k < i && k < |actions| && actions[k] == StartAsync(true) && states[k + 1].generation == g
  }

  /** Before `i`, a failed attempt was put off to a retry of generation `g`. */
  ghost predicate PutOff<T(!new)>(states: seq<Run<T>>, actions: seq<Action<T>>, i: nat, g: nat)
    requires |states| == |actions| + 1
  {
    exists k :: 0 <= k < i && k < |actions| && actions[k] == ConsumeRetry && states[k + 1].generation == g
  }

  ghost predicate Genuine<T(!new)>(states: seq<Run<T>>, actions: seq<Action<T>>, i: nat, g: nat, outcome: Outcome<T>)
    requires |states| == |actions| + 1
  {
    match outcome
    case Final(v) => Completed(actions, i, g, v)
    case TimedOut => Timed(states, actions, i, g)
    case RetryReady => PutOff(states, actions, i, g)
  }

  /** Every waker of state `i` goes back to an action before it, and so does a ready result. */
  ghost predicate Sourced<T(!new)>(states: seq<Run<T>>, actions: seq<Action<T>>, i: nat)
    requires |states| == |actions| + 1 && i < |states|
  {
    var s := states[i];
    && (forall g :: g in s.inFlight ==> Completed(actions, i, g, s.inFlight[g]))
    && (forall g :: g in s.timeoutTimer ==> Timed(states, actions, i, g))
    && (forall g :: g in s.retryTimer ==> PutOff(states, actions, i, g))
    && (s.pending && s.ready ==> s.result.Some? && Genuine(states, actions, i, s.generation, s.result.value))
  }

  lemma SourcesStay<T(!new)>(states: seq<Run<T>>, actions: seq<Action<T>>, i: nat, g: nat)
    requires |states| == |actions| + 1
    ensures forall v :: Completed(actions, i, g, v) ==> Completed(actions, i + 1, g, v)
    ensures Timed(states, actions, i, g) ==> Timed(states, actions, i + 1, g)
    ensures PutOff(states, actions, i, g) ==> PutOff(states, actions, i + 1, g)
  {
  }

  /** The wakers that action `i` adds. */
  lemma SourceAdded<T(!new)>(states: seq<Run<T>>, actions: seq<Action<T>>, i: nat)
    requires IsHistory(states, actions) && i < |actions|
    ensures actions[i].Complete? ==> Completed(actions, i + 1, actions[i].generation, actions[i].value)
    ensures actions[i] == StartAsync(true) ==> Timed(states, actions, i + 1, states[i + 1].generation)
    ensures actions[i] == ConsumeRetry ==> PutOff(states, actions, i + 1, states[i + 1].generation)
  {
  }

  /** A completion is on its way from its executor's call until its section. */
  lemma InFlightOf<T(!new)>(s: Run<T>, a: Action<T>)
    requires Enabled(s, a)
    ensures Apply(s, a).inFlight ==
            match a
            case Complete(g, v) => s.inFlight[g := v]
            case CompletionSection(g) => s.inFlight - {g}
            case _ => s.inFlight
  {
    match a
    case Complete(g, v) =>
    case CompletionSection(g) =>
    case _ =>
  }

  /** A timer is set by the action that opens its generation. */
  lemma NewTimeout<T(!new)>(s: Run<T>, a: Action<T>, g: nat)
    requires Enabled(s, a) && g in Apply(s, a).timeoutTimer && g !in s.timeoutTimer
    ensures a == StartAsync(true) && g == Apply(s, a).generation
  {
  }

  lemma NewRetry<T(!new)>(s: Run<T>, a: Action<T>, g: nat)
    requires Enabled(s, a) && g in Apply(s, a).retryTimer && g !in s.retryTimer
    ensures a == ConsumeRetry && g == Apply(s, a).generation
  {
  }

  /** What the section of a waker leaves behind. */
  function OutcomeOf<T>(s: Run<T>, a: Action<T>): Outcome<T>
    requires Enabled(s, a) && (a.CompletionSection? || a.TimeoutSection? || a.RetrySection?)
  {
    if a.CompletionSection? then Final(s.inFlight[a.generation]) else if a.TimeoutSection? then TimedOut else RetryReady
  }

  /** The drive and the callers never make a result ready or change one. */
  lemma DriveKeepsResult<T(!new)>(s: Run<T>, a: Action<T>)
    requires Enabled(s, a) && !Outside(a) && Apply(s, a).pending && Apply(s, a).ready
    ensures Visible(Apply(s, a)) == Visible(s)
  {
  }

  /** A section of a waker writes its own outcome, or changes nothing the run can see. */
  lemma OutsideWrites<T(!new)>(s: Run<T>, a: Action<T>)
    requires Enabled(s, a) && Outside(a)
    ensures || Visible(Apply(s, a)) == Visible(s)
            || ((a.CompletionSection? || a.TimeoutSection? || a.RetrySection?)
                && a.generation == s.generation && Visible(Apply(s, a)) == (true, true, s.generation, Some(OutcomeOf(s, a))))
  {
  }

  lemma SourcedStep<T(!new)>(states: seq<Run<T>>, actions: seq<Action<T>>, i: nat)
    requires IsHistory(states, actions) && i < |actions| && Sourced(states, actions, i)
    ensures Sourced(states, actions, i + 1)
  {
    var s, t, a := states[i], states[i + 1], actions[i];
    assert IsStep(states, actions, i);
    SourceAdded(states, actions, i);
    InFlightOf(s, a);
    forall g
      ensures g in t.inFlight ==> Completed(actions, i + 1, g, t.inFlight[g])
      ensures g in t.timeoutTimer ==> Timed(states, actions, i + 1, g)
      ensures g in t.retryTimer ==> PutOff(states, actions, i + 1, g)
    {
      if g in t.timeoutTimer && g !in s.timeoutTimer {
        NewTimeout(s, a, g);
      }
      if g in t.retryTimer && g !in s.retryTimer {
        NewRetry(s, a, g);
      }
      SourcesStay(states, actions, i, g);
    }
    if t.pending && t.ready {
      if Outside(a) {
        OutsideWrites(s, a);
      } else {
        DriveKeepsResult(s, a);
      }
      SourcesStay(states, actions, i, s.generation);
    }
  }

  lemma {:induction false} SourcedAll<T(!new)>(states: seq<Run<T>>, actions: seq<Action<T>>, i: nat)
    requires IsHistory(states, actions) && i < |states|
    ensures Sourced(states, actions, i)
  {
    if i > 0 {
      SourcedAll(states, actions, i - 1);
      SourcedStep(states, actions, i - 1);
    }
  }

  /**
   A ready result tells the truth: a value was completed for the awaited generation, a
   timeout belongs to an executor started with one, a retry to an attempt that was put off.
   */
  lemma ResultsAreGenuine<T(!new)>(states: seq<Run<T>>, actions: seq<Action<T>>, i: nat)
    requires IsHistory(states, actions) && i < |states| && states[i].pending && states[i].ready
    ensures states[i].result.Some? && Genuine(states, actions, i, states[i].generation, states[i].result.value)
  {
    SourcedAll(states, actions, i);
  }

  /** A generation completed at `k` is over for its executor, and its value is the one on its way. */
  ghost predicate Settled<T(!new)>(s: Run<T>, g: nat, v: T) {
    g <= s.generation && g !in s.open && (g in s.inFlight ==> s.inFlight[g] == v)
  }

  ghost predicate OpenIsOld<T>(s: Run<T>) {
    forall g :: g in s.open ==> g <= s.generation
  }

  lemma OpenIsOldStep<T(!new)>(s: Run<T>, a: Action<T>)
    requires Enabled(s, a) && OpenIsOld(s)
    ensures OpenIsOld(Apply(s, a))
  {
  }

  lemma SettledStep<T(!new)>(s: Run<T>, a: Action<T>, g: nat, v: T)
    requires Enabled(s, a) && OpenIsOld(s) && (a == Complete(g, v) || Settled(s, g, v))
    ensures Settled(Apply(s, a), g, v)
  {
    InFlightOf(s, a);
  }

  lemma {:induction false} CompletedOnce<T(!new)>(states: seq<Run<T>>, actions: seq<Action<T>>, k: nat, i: nat)
    requires IsHistory(states, actions) && k < i < |states| && actions[k].Complete?
    ensures Settled(states[i], actions[k].generation, actions[k].value)
    decreases i
  {
    assert IsStep(states, actions, i - 1);
    OpenAll(states, actions, i - 1);
    if k < i - 1 {
      CompletedOnce(states, actions, k, i - 1);
    }
    SettledStep(states[i - 1], actions[i - 1], actions[k].generation, actions[k].value);
  }

  lemma {:induction false} OpenAll<T(!new)>(states: seq<Run<T>>, actions: seq<Action<T>>, i: nat)
    requires IsHistory(states, actions) && i < |states|
    ensures OpenIsOld(states[i])
  {
    if i > 0 {
      OpenAll(states, actions, i - 1);
      assert IsStep(states, actions, i - 1);
      OpenIsOldStep(states[i - 1], actions[i - 1]);
    }
  }

  /**
   The first waker of the awaited generation decides: its section leaves its own outcome,
   a completion the value its executor completed with.
   */
  lemma FirstWakerDecides<T(!new)>(states: seq<Run<T>>, actions: seq<Action<T>>, i: nat)
    requires IsHistory(states, actions) && i < |actions|
    requires actions[i].CompletionSection? || actions[i].TimeoutSection? || actions[i].RetrySection?
    requires states[i].pending && !states[i].ready && states[i].generation == actions[i].generation
    ensures states[i + 1].pending && states[i + 1].ready
    ensures actions[i].TimeoutSection? ==> states[i + 1].result == Some(TimedOut)
    ensures actions[i].RetrySection? ==> states[i + 1].result == Some(RetryReady)
    ensures actions[i].CompletionSection? ==> states[i + 1].result.Some? && states[i + 1].result.value.Final?
    ensures actions[i].CompletionSection? ==>
              forall k :: 0 <= k < i && actions[k].Complete? && actions[k].generation == actions[i].generation ==>
                            states[i + 1].result == Some(Final(actions[k].value))
  {
    assert IsStep(states, actions, i);
    forall k | 0 <= k < i && actions[k].Complete? && actions[k].generation == actions[i].generation
      ensures Settled(states[i], actions[k].generation, actions[k].value)
    {
      CompletedOnce(states, actions, k, i);
    }
  }

  /**
   Callbacks: over any history the number of deliveries is the number of
   execute_async registrations, less the one still awaited.
   */
  lemma CallbackAtMostOnce<T(!new)>(states: seq<Run<T>>, actions: seq<Action<T>>, i: nat)
    requires IsHistory(states, actions) && i < |states|
    ensures states[i].registrations - 1 <= states[i].deliveries <= states[i].registrations
    ensures states[i].deliveries == states[i].registrations <==> !Active(states[i])
  {
    HistoryInv(states, actions, i);
  }

  /** Some drive has yet to test async_ready, is consuming it, or is about to deliver the callback. */
  ghost predicate WillLook<T>(s: Run<T>) {
    || s.registering + s.cancelling + s.posting + s.queued + s.waiting + s.endedPending + s.endedDone >= 1
    || s.inside == Some(Top) || s.inside == Some(Consuming) || s.inside == Some(Started)
  }

  /**
   No wake-up is lost. While a callback is awaited, a ready result that nobody
   consumed has a drive that will look at it; a run with no drive at all sleeps on
   an unfinished generation whose waker still exists; there is never a second
   drive; and after a cancellation some thread is on its way to deliver the callback.
   */
  lemma NoLostWakeup<T(!new)>(states: seq<Run<T>>, actions: seq<Action<T>>, i: nat)
    requires IsHistory(states, actions) && i < |states| && Active(states[i])
    ensures var s := states[i];
            && (s.pending && s.ready ==> WillLook(s))
            && (!s.cancelled && Drives(s) == 0 ==> s.pending && !s.ready && HasWaker(s))
            && (!s.cancelled ==> Drives(s) <= 1)
            && (s.cancelled ==> Deciders(s) >= 1)
  {
    HistoryInv(states, actions, i);
    match states[i].inside
    case None =>
    case Some(Top) =>
    case Some(Consuming) =>
    case Some(Body) =>
    case Some(Started) =>
  }
}
