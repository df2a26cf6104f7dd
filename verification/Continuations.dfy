/**
 Wake-ups and callbacks of a run that mixes asynchronous, parallel and subflow nodes
 over several execute_async registrations (src/dage.cpp: execute_async, the
 continuation sections of execute_step, the completion callbacks, Run::cancel).

 Each registration makes a closure of its own. A drive is a call of such a closure, and
 submits the closure again when it closes and finds a result ready. The drive that
 delivers a callback empties its closure, and an empty closure is refused by the
 scheduler; so every drive carries the number of its registration. Every mutex-protected
 section is one action, and so is every submission that reads a closure; other
 submissions are accepted. How one kind of node waits in detail is in AsyncRun and
 ParallelNode.
 */
module Continuations {
  import opened Base

  datatype Kind = Async | Parallel | Subflow

  /**
   Where a drive stands: submitted, waiting for drive_mutex, in the sections of
   execute_step, in the closing sections, or about to empty its closure.
   */
  datatype Place =
    | Queued | Waiting | Top | Body | Started
    | EndedPending | ReadingBatch | ReadingSubflow | Reposting | EndedDone | Clearing

  datatype Drive = Drive(tag: nat, place: Place)

  /**
   `wait` is the continuation the current node waits for and `ready` its flag
   (async_ready, batch_ready or subflow_ready). `beginning` holds the registrations that
   have not stored resume_drive yet, `posting` those that have not submitted their first
   drive, `notifying` counts children that completed a batch and are about to look at
   `driving`. Three histories: the callbacks called, the registrations whose first
   submission was refused, and those whose callback such a refusal dropped.
   */
  datatype Run = Run(
    registrations: nat, active: bool, resume: Option<nat>, emptied: set<nat>,
    driving: bool, wait: Option<Kind>, ready: bool,
    drives: map<nat, Drive>, next: nat, beginning: set<nat>, posting: set<nat>, notifying: nat,
    calls: multiset<nat>, refused: set<nat>, dropped: set<nat>)

  datatype Action =
    // user threads
    | RegisterBegin | RegisterStore(tag: nat) | RegisterPost(tag: nat) | Cancel
    // scheduler
    | Begin(d: nat) | Enter(d: nat)
    // inside execute_step
    | Check(d: nat) | Abort(d: nat) | StartWait(d: nat, kind: Kind) | BatchFilled(d: nat) | Proceed(d: nat)
    | ReturnPending(d: nat) | NextNode(d: nat) | FinishRun(d: nat)
    // closing sections of a drive
    | CloseAsync(d: nat) | CloseBatch(d: nat) | CloseSubflow(d: nat) | Repost(d: nat) | CloseDone(d: nat) | Clear(d: nat)
    // executors and children
    | Complete | BatchDone | Notify

  function Initial(): Run {
    Run(0, false, None, {}, false, None, false, map[], 0, {}, {}, 0, multiset{}, {}, {})
  }

  predicate Inside(p: Place) {
    p.Top? || p.Body? || p.Started?
  }

  predicate At(s: Run, d: nat, p: Place) {
    d in s.drives && s.drives[d].place == p
  }

  predicate Ready(s: Run, k: Kind) {
    s.wait == Some(k) && s.ready
  }

  predicate Enabled(s: Run, a: Action) {
    match a
    case RegisterBegin => !s.active
    case RegisterStore(t) => t in s.beginning
    case RegisterPost(t) => t in s.posting
    case Cancel => true
    case Begin(d) => At(s, d, Queued)
    case Enter(d) => At(s, d, Waiting) && forall e :: e in s.drives ==> !Inside(s.drives[e].place)
    case Check(d) => At(s, d, Top)
    case Abort(d) => d in s.drives && Inside(s.drives[d].place)
    case StartWait(d, _) => At(s, d, Body)
    case BatchFilled(d) => At(s, d, Started) && s.wait == Some(Parallel)
    case Proceed(d) => At(s, d, Started) && (Ready(s, Parallel) || Ready(s, Subflow))
    case ReturnPending(d) => At(s, d, Started) && (s.wait == Some(Async) || !s.ready)
    case NextNode(d) => At(s, d, Body)
    case FinishRun(d) => At(s, d, Body)
    case CloseAsync(d) => At(s, d, EndedPending)
    case CloseBatch(d) => At(s, d, ReadingBatch)
    case CloseSubflow(d) => At(s, d, ReadingSubflow)
    case Repost(d) => At(s, d, Reposting)
    case CloseDone(d) => At(s, d, EndedDone)
    case Clear(d) => At(s, d, Clearing)
    case Complete => (s.wait == Some(Async) || s.wait == Some(Subflow)) && !s.ready
    case BatchDone => s.wait == Some(Parallel) && !s.ready
    case Notify => s.notifying > 0
  }

  function Move(s: Run, d: nat, p: Place): Run
    requires d in s.drives
  {
    s.(drives := s.drives[d := s.drives[d].(place := p)])
  }

  function Remove(s: Run, d: nat): Run {
    s.(drives := s.drives - {d})
  }

  /** A new drive of closure `tag`. */
  function Submit(s: Run, tag: nat): Run {
    s.(drives := s.drives[s.next := Drive(tag, Queued)], next := s.next + 1)
  }

  /** Submits a copy of resume_drive, if there is one. */
  function Resume(s: Run): Run {
    if s.resume.Some? then Submit(s, s.resume.value) else s
  }

  function Consume(s: Run): Run {
    s.(wait := None, ready := false)
  }

  /** A continuation check at the head of the loop: nothing to wait for, pending, or a result to take. */
  function CheckOf(s: Run, d: nat): Run
    requires d in s.drives
  {
    if s.wait.None? then Move(s, d, Body)
    else if s.ready then Move(Consume(s), d, Body)
    else Move(s, d, EndedPending)
  }

  /** The submission at the end of execute_async; a refused one calls the callback and forgets the registered one. */
  function PostOf(s: Run, tag: nat): Run {
    var t := s.(posting := s.posting - {tag});
    if tag !in s.emptied then Submit(t, tag)
    else t.(active := false, resume := None, calls := s.calls + multiset{tag}, refused := s.refused + {tag},
            dropped := if s.active then s.dropped + {s.registrations} else s.dropped)
  }

  /** The closing section of a drive that has a result: it delivers the callback unless that was done. */
  function CloseDoneOf(s: Run, d: nat): Run
    requires d in s.drives
  {
    var t := s.(driving := false);
    if !s.active then Remove(t, d)
    else
      var kept := if s.wait == Some(Parallel) then t else Consume(t);
      Move(kept.(active := false, resume := None, calls := s.calls + multiset{s.registrations}), d, Clearing)
  }

  function Apply(s: Run, a: Action): Run
    requires Enabled(s, a)
  {
    match a
    case RegisterBegin =>
      s.(registrations := s.registrations + 1, active := true, beginning := s.beginning + {s.registrations + 1})
    case RegisterStore(t) => s.(resume := Some(t), beginning := s.beginning - {t}, posting := s.posting + {t})
    case RegisterPost(t) => PostOf(s, t)
    case Cancel => Resume(s)
    case Begin(d) => Move(s.(driving := true), d, Waiting)
    case Enter(d) => Move(s, d, Top)
    case Check(d) => CheckOf(s, d)
    case Abort(d) => Move(s, d, EndedDone)
    case StartWait(d, k) => Move(s.(wait := Some(k), ready := false), d, Started)
    case BatchFilled(d) => s.(ready := true)
    case Proceed(d) => Move(Consume(s), d, Body)
    case ReturnPending(d) => Move(s, d, EndedPending)
    case NextNode(d) => Move(s, d, Top)
    case FinishRun(d) => Move(s, d, EndedDone)
    case CloseAsync(d) => Move(s.(driving := false), d, if Ready(s, Async) then Reposting else ReadingBatch)
    case CloseBatch(d) => Move(s, d, if Ready(s, Parallel) then Reposting else ReadingSubflow)
    case CloseSubflow(d) => if Ready(s, Subflow) then Move(s, d, Reposting) else Remove(s, d)
    case Repost(d) => if s.drives[d].tag in s.emptied then Remove(s, d) else Move(s, d, Queued)
    case CloseDone(d) => CloseDoneOf(s, d)
    case Clear(d) => Remove(s.(emptied := s.emptied + {s.drives[d].tag}), d)
    case Complete => var t := s.(ready := true); if s.driving then t else Resume(t)
    case BatchDone => s.(ready := true, notifying := s.notifying + 1)
    case Notify => var t := s.(notifying := s.notifying - 1); if s.driving then t else Resume(t)
  }

  ghost predicate IsStep(states: seq<Run>, actions: seq<Action>, i: nat)
    requires |states| == |actions| + 1 && i < |actions|
  {
    Enabled(states[i], actions[i]) && states[i + 1] == Apply(states[i], actions[i])
  }

  ghost predicate IsHistory(states: seq<Run>, actions: seq<Action>) {
    && |states| == |actions| + 1 && states[0] == Initial()
    && forall i :: 0 <= i < |actions| ==> IsStep(states, actions, i)
  }

  // ---------------------------------------------------------------- invariant

  /** Before its closing section: `driving` is set on its behalf or on a later drive's. */
  predicate BeforeClose(p: Place) {
    p.Waiting? || Inside(p) || p.EndedPending? || p.EndedDone?
  }

  ghost predicate AnyBeforeClose(s: Run) {
    exists d :: d in s.drives && BeforeClose(s.drives[d].place)
  }

  /** One drive at a time holds drive_mutex, and the node it works on waits for nothing. */
  ghost predicate OneInside(s: Run) {
    && (forall d :: d in s.drives ==> d < s.next)
    && (forall d, e :: d in s.drives && e in s.drives && Inside(s.drives[d].place) && Inside(s.drives[e].place) ==> d == e)
    && (forall d :: d in s.drives && s.drives[d].place.Body? ==> s.wait.None?)
  }

  ghost predicate DriveInv(s: Run) {
    && OneInside(s)
    && (s.driving ==> AnyBeforeClose(s))
    && (s.active && s.registrations !in s.beginning ==> s.resume.Some?)
  }

  predicate OnDrive(a: Action) {
    !(a.RegisterBegin? || a.RegisterStore? || a.RegisterPost? || a.Cancel? || a.Complete? || a.BatchDone? || a.Notify?)
  }

  predicate OnStep(a: Action) {
    a.Check? || a.Abort? || a.StartWait? || a.BatchFilled? || a.Proceed? || a.ReturnPending? || a.NextNode? || a.FinishRun?
  }

  /** Only drive `d` changed, which holds drive_mutex. */
  ghost predicate InsideMoved(s: Run, t: Run, d: nat) {
    && t.next == s.next && d in s.drives && Inside(s.drives[d].place)
    && (forall e :: e in t.drives && e != d ==> e in s.drives && t.drives[e] == s.drives[e])
    && (d in t.drives && t.drives[d].place.Body? ==> t.wait.None?)
  }

  lemma InsideMovedKeeps(s: Run, t: Run, d: nat)
    requires OneInside(s) && InsideMoved(s, t, d)
    ensures OneInside(t)
  {
  }

  lemma StepMovesInside(s: Run, a: Action)
    requires Enabled(s, a) && OnStep(a) && (At(s, a.d, Body) ==> s.wait.None?)
    ensures InsideMoved(s, Apply(s, a), a.d)
  {
  }

  /** Only drive `d` changed, and it is inside only if no other is. */
  ghost predicate OnlyMoved(s: Run, t: Run, d: nat) {
    && t.next >= s.next && d < t.next && (t.wait == s.wait || t.wait.None?)
    && (forall e :: e in t.drives && e != d ==> e in s.drives && t.drives[e] == s.drives[e])
    && (d in t.drives && Inside(t.drives[d].place) ==>
          t.drives[d].place.Top? && forall e :: e in s.drives && e != d ==> !Inside(s.drives[e].place))
  }

  lemma OnlyMovedKeeps(s: Run, t: Run, d: nat)
    requires OneInside(s) && OnlyMoved(s, t, d)
    ensures OneInside(t)
  {
  }

  lemma DriveMovesOnly(s: Run, a: Action)
    requires Enabled(s, a) && OnDrive(a) && !OnStep(a) && a.d < s.next
    ensures OnlyMoved(s, Apply(s, a), a.d)
  {
  }

  /** Other threads submit a drive or leave the drives alone. */
  ghost predicate SubmitsOnly(s: Run, t: Run) {
    t.wait == s.wait && ((t.drives == s.drives && t.next == s.next) || OnlyMoved(s, t, s.next))
  }

  lemma ResumeSubmitsOnly(s: Run)
    ensures SubmitsOnly(s, Resume(s))
  {
  }

  lemma EnvironmentSubmitsOnly(s: Run, a: Action)
    requires Enabled(s, a) && !OnDrive(a)
    ensures SubmitsOnly(s, Apply(s, a))
  {
    match a
    case Cancel => ResumeSubmitsOnly(s);
    case Complete => ResumeSubmitsOnly(s.(ready := true));
    case Notify => ResumeSubmitsOnly(s.(notifying := s.notifying - 1));
    case _ =>
  }

  lemma OthersKeepOneInside(s: Run, a: Action)
    requires OneInside(s) && Enabled(s, a) && !OnStep(a)
    ensures OneInside(Apply(s, a))
  {
    var t := Apply(s, a);
    if OnDrive(a) {
      assert a.d in s.drives;
      DriveMovesOnly(s, a);
      OnlyMovedKeeps(s, t, a.d);
    } else {
      EnvironmentSubmitsOnly(s, a);
      if OnlyMoved(s, t, s.next) {
        OnlyMovedKeeps(s, t, s.next);
      }
    }
  }

  /** A step of another drive, or of none, leaves the drive before its closing section. */
  lemma StillBeforeClose(s: Run, t: Run, e: nat)
    requires AnyBeforeClose(s)
    requires forall d :: d in s.drives && d != e ==> d in t.drives && t.drives[d] == s.drives[d]
    requires e in s.drives && BeforeClose(s.drives[e].place) ==> e in t.drives && BeforeClose(t.drives[e].place)
    ensures AnyBeforeClose(t)
  {
    var d :| d in s.drives && BeforeClose(s.drives[d].place);
    assert d in t.drives && BeforeClose(t.drives[d].place);
  }

  lemma DrivingStep(s: Run, a: Action)
    requires DriveInv(s) && Enabled(s, a) && Apply(s, a).driving
    ensures AnyBeforeClose(Apply(s, a))
  {
    var t := Apply(s, a);
    if a.Begin? || OnStep(a) {
      assert a.d in t.drives && BeforeClose(t.drives[a.d].place);
    } else if OnDrive(a) {
      DriveStillBeforeClose(s, a);
    } else {
      StillBeforeClose(s, t, s.next);
    }
  }

  lemma DriveStillBeforeClose(s: Run, a: Action)
    requires Enabled(s, a) && OnDrive(a) && !OnStep(a) && !a.Begin? && AnyBeforeClose(s) && Apply(s, a).driving
    ensures AnyBeforeClose(Apply(s, a))
  {
    StillBeforeClose(s, Apply(s, a), a.d);
  }

  lemma ActionKeepsInv(s: Run, a: Action)
    requires DriveInv(s) && Enabled(s, a)
    ensures DriveInv(Apply(s, a))
  {
    if OnStep(a) {
      StepMovesInside(s, a);
      InsideMovedKeeps(s, Apply(s, a), a.d);
    } else {
      OthersKeepOneInside(s, a);
    }
    if Apply(s, a).driving {
      DrivingStep(s, a);
    }
  }

  lemma {:induction false} HistoryInv(states: seq<Run>, actions: seq<Action>, i: nat)
    requires IsHistory(states, actions) && i < |states|
    ensures DriveInv(states[i])
  {
    if i > 0 {
      HistoryInv(states, actions, i - 1);
      assert IsStep(states, actions, i - 1);
      ActionKeepsInv(states[i - 1], actions[i - 1]);
    }
  }

  // ---------------------------------------------------------------- wake-ups

  /** A drive at `p` will still look at the flag of a continuation of kind `k`, has seen it, or will deliver the callback. */
  predicate Knows(p: Place, k: Kind) {
    match p
    case ReadingBatch => k != Async
    case ReadingSubflow => k == Subflow
    case Body => false
    case Clearing => false
    case _ => true
  }

  ghost predicate HeldBy(s: Run, k: Kind, d: nat) {
    d in s.drives && Knows(s.drives[d].place, k)
  }

  /** Some drive knows of the continuation, or some thread is about to submit or to look. */
  ghost predicate Held(s: Run, k: Kind) {
    s.beginning != {} || s.posting != {} || s.notifying > 0 || exists d :: HeldBy(s, k, d)
  }

  ghost predicate Awaited(s: Run) {
    s.active && s.wait.Some? && s.ready
  }

  /** A ready result of a run whose callback is awaited is not forgotten. */
  ghost predicate Known(s: Run) {
    Awaited(s) ==> Held(s, s.wait.value)
  }

  /** A drive submits its emptied closure, and no other drive or thread knows of the ready result. */
  ghost predicate Loses(s: Run, a: Action) {
    && a.Repost? && At(s, a.d, Reposting) && s.drives[a.d].tag in s.emptied && Awaited(s)
    && !Held(Remove(s, a.d), s.wait.value)
  }

  lemma EnvironmentKeepsKnown(s: Run, a: Action)
    requires DriveInv(s) && Enabled(s, a) && !OnDrive(a) && Known(s)
    ensures Known(Apply(s, a))
  {
    var t := Apply(s, a);
    if Awaited(t) {
      var k := t.wait.value;
      if a.RegisterBegin? || a.RegisterStore? {
        assert t.registrations in t.beginning || a.tag in t.posting;
      } else if t.drives != s.drives {
        assert HeldBy(t, k, s.next);
      } else if s.driving {
        var d :| d in s.drives && BeforeClose(s.drives[d].place);
        assert HeldBy(t, k, d);
      }
    }
  }

  lemma StepKeepsKnown(s: Run, a: Action)
    requires DriveInv(s) && Enabled(s, a) && OnStep(a)
    ensures Known(Apply(s, a))
  {
    var t := Apply(s, a);
    if Awaited(t) {
      assert HeldBy(t, t.wait.value, a.d);
    }
  }

  /** A step of drive `d` that changes no flag keeps the knowledge if `d` keeps its own or goes on without any. */
  lemma OtherKeepsHeld(s: Run, t: Run, k: Kind, d: nat)
    requires Held(s, k) && t.beginning == s.beginning && t.posting == s.posting && t.notifying == s.notifying
    requires forall e :: e in s.drives && e != d ==> e in t.drives && t.drives[e] == s.drives[e]
    requires HeldBy(s, k, d) ==> Held(t, k)
    ensures Held(t, k)
  {
    if s.beginning == {} && s.posting == {} && s.notifying == 0 {
      var e :| HeldBy(s, k, e);
      if e != d {
        assert HeldBy(t, k, e);
      }
    }
  }

  lemma DriveKeepsKnown(s: Run, a: Action)
    requires DriveInv(s) && Enabled(s, a) && OnDrive(a) && !OnStep(a) && Known(s)
    ensures Known(Apply(s, a)) <==> !Loses(s, a)
  {
    var t := Apply(s, a);
    if Awaited(t) {
      var k := t.wait.value;
      if a.Repost? && s.drives[a.d].tag in s.emptied {
        assert t == Remove(s, a.d);
      } else {
        assert HeldBy(s, k, a.d) ==> HeldBy(t, k, a.d);
        OtherKeepsHeld(s, t, k, a.d);
      }
    }
  }

  /** Nothing but a cancellation submits a drive for a forgotten result. */
  lemma ForgottenStays(s: Run, a: Action)
    requires DriveInv(s) && Enabled(s, a) && !Known(s)
    ensures Known(Apply(s, a)) <==> a.Cancel?
  {
    var t := Apply(s, a);
    var k := s.wait.value;
    assert !s.driving by {
      if s.driving {
        var d :| d in s.drives && BeforeClose(s.drives[d].place);
        assert HeldBy(s, k, d);
      }
    }
    if a.Cancel? {
      assert HeldBy(t, k, s.next);
    } else {
      assert OnDrive(a) ==> !HeldBy(s, k, a.d);
      forall d
        ensures !HeldBy(t, k, d)
      {
        assert !HeldBy(s, k, d);
      }
    }
  }

  /** What one action does to the knowledge of a ready result, exactly. */
  lemma KnowledgeStep(s: Run, a: Action)
    requires DriveInv(s) && Enabled(s, a)
    ensures Known(Apply(s, a)) <==> if Known(s) then !Loses(s, a) else a.Cancel?
  {
    if !Known(s) {
      ForgottenStays(s, a);
    } else if OnStep(a) {
      StepKeepsKnown(s, a);
    } else if OnDrive(a) {
      DriveKeepsKnown(s, a);
    } else {
      EnvironmentKeepsKnown(s, a);
    }
  }

  ghost predicate CancelledBetween(actions: seq<Action>, j: nat, i: nat) {
    exists c :: j < c < i && c < |actions| && actions[c].Cancel?
  }

  /** Every submission of an emptied closure that lost a result before `i` was followed by a cancellation. */
  ghost predicate NothingLost(states: seq<Run>, actions: seq<Action>, i: nat)
    requires |states| == |actions| + 1 && i <= |actions|
  {
    forall j :: 0 <= j < i && Loses(states[j], actions[j]) ==> CancelledBetween(actions, j, i)
  }

  lemma NothingLostStep(states: seq<Run>, actions: seq<Action>, i: nat)
    requires |states| == |actions| + 1 && i < |actions|
    ensures NothingLost(states, actions, i + 1) <==>
              actions[i].Cancel? || (NothingLost(states, actions, i) && !Loses(states[i], actions[i]))
  {
    if actions[i].Cancel? {
      forall j | 0 <= j < i + 1 && Loses(states[j], actions[j])
        ensures CancelledBetween(actions, j, i + 1)
      {
        assert j < i;
      }
    } else {
      forall j | 0 <= j < i
        ensures CancelledBetween(actions, j, i + 1) <==> CancelledBetween(actions, j, i)
      {
        if CancelledBetween(actions, j, i + 1) {
          var c :| j < c < i + 1 && c < |actions| && actions[c].Cancel?;
          assert c < i;
        }
      }
      assert !CancelledBetween(actions, i, i + 1);
    }
  }

  /**
   In every history, a ready result is known to some drive or thread exactly if no drive
   lost it by submitting an emptied closure, or a cancellation came after that.
   */
  lemma {:induction false} KnownExactly(states: seq<Run>, actions: seq<Action>, i: nat)
    requires IsHistory(states, actions) && i < |states|
    ensures Known(states[i]) <==> NothingLost(states, actions, i)
  {
    if i > 0 {
      KnownExactly(states, actions, i - 1);
      assert IsStep(states, actions, i - 1);
      HistoryInv(states, actions, i - 1);
      KnowledgeStep(states[i - 1], actions[i - 1]);
      NothingLostStep(states, actions, i - 1);
    }
  }

  // ---------------------------------------------------------------- a result that is lost

  function LastOf(states: seq<Run>): Run
    requires states != []
  {
    states[|states| - 1]
  }

  /** The last state of some history. */
  ghost predicate Reached(s: Run) {
    exists states, actions :: IsHistory(states, actions) && LastOf(states) == s
  }

  lemma StartReached()
    ensures Reached(Initial())
  {
    assert IsHistory([Initial()], []) && LastOf([Initial()]) == Initial();
  }

  lemma Then(s: Run, a: Action) returns (t: Run)
    requires Reached(s) && Enabled(s, a)
    ensures Reached(t) && t == Apply(s, a)
  {
    var states, actions :| IsHistory(states, actions) && LastOf(states) == s;
    t := Apply(s, a);
    var states', actions' := states + [t], actions + [a];
    forall i | 0 <= i < |actions'|
      ensures IsStep(states', actions', i)
    {
      if i < |actions| {
        assert IsStep(states, actions, i);
      }
    }
    assert IsHistory(states', actions') && LastOf(states') == t;
  }

  /** The run after a registration whose first drive has entered execute_step. */
  function Launched(s: Run): Run {
    s.(registrations := s.registrations + 1, active := true, resume := Some(s.registrations + 1), driving := true,
       drives := s.drives[s.next := Drive(s.registrations + 1, Top)], next := s.next + 1)
  }

  lemma Launch(s: Run) returns (t: Run)
    requires Reached(s) && !s.active && s.beginning == {} && s.posting == {} && s.registrations + 1 !in s.emptied
    requires forall d :: d in s.drives ==> !Inside(s.drives[d].place) && d < s.next
    ensures Reached(t) && t == Launched(s)
  {
    t := Then(s, RegisterBegin);
    t := Then(t, RegisterStore(t.registrations));
    t := Then(t, RegisterPost(t.registrations));
    t := Then(t, Begin(s.next));
    t := Then(t, Enter(s.next));
    assert t.beginning == {} && t.posting == {};
    assert t.drives == Launched(s).drives;
  }

  /** A queued drive enters execute_step. */
  lemma GoIn(s: Run, d: nat) returns (t: Run)
    requires Reached(s) && At(s, d, Queued) && forall e :: e in s.drives ==> !Inside(s.drives[e].place)
    ensures Reached(t) && t == Move(s.(driving := true), d, Top)
  {
    t := Then(s, Begin(d));
    t := Then(t, Enter(d));
    assert t.drives == Move(s, d, Top).drives;
  }

  /** A drive that has nothing to wait for starts a continuation and returns while it is pending. */
  lemma GoToSleep(s: Run, d: nat, k: Kind) returns (t: Run)
    requires Reached(s) && At(s, d, Top) && s.wait.None?
    ensures Reached(t) && t == Move(s.(driving := false, wait := Some(k), ready := false), d, ReadingBatch)
  {
    t := Then(s, Check(d));
    t := Then(t, StartWait(d, k));
    t := Then(t, ReturnPending(d));
    t := Then(t, CloseAsync(d));
    assert t.drives == Move(s, d, ReadingBatch).drives;
  }

  /** A drive that reached the end of the run delivers the callback and empties its closure. */
  lemma Deliver(s: Run, d: nat) returns (t: Run)
    requires Reached(s) && At(s, d, Body) && s.active && s.wait.None?
    ensures Reached(t)
    ensures t == Remove(s.(active := false, resume := None, driving := false, ready := false,
                           emptied := s.emptied + {s.drives[d].tag}, calls := s.calls + multiset{s.registrations}), d)
  {
    t := Then(s, FinishRun(d));
    t := Then(t, CloseDone(d));
    t := Then(t, Clear(d));
    assert t.drives == s.drives - {d};
  }

  /** Two drives of one registration: the child that completed the batch and the closing drive both submit one. */
  const TWINS := Run(1, true, Some(1), {}, false, Some(Parallel), true,
                     map[0 := Drive(1, Queued), 1 := Drive(1, Queued)], 2, {}, {}, 0, multiset{}, {}, {})

  lemma TwinsHappen()
    ensures Reached(TWINS)
  {
    StartReached();
    var s := Launch(Initial());
    s := GoToSleep(s, 0, Parallel);
    s := Then(s, BatchDone);
    s := Then(s, Notify);
    s := Then(s, CloseBatch(0));
    s := Then(s, Repost(0));
    assert s.drives == TWINS.drives;
  }

  /** One of them delivered the callback and emptied the closure; the other is still queued. */
  const LEFT_OVER := Run(1, false, None, {1}, false, None, false,
                         map[1 := Drive(1, Queued)], 2, {}, {}, 0, multiset{1}, {}, {})

  lemma LeftOverHappens()
    ensures Reached(LEFT_OVER)
  {
    TwinsHappen();
    var s := GoIn(TWINS, 0);
    s := Then(s, Check(0));
    s := Deliver(s, 0);
    assert s.drives == LEFT_OVER.drives;
  }

  /** A second registration sleeps on an asynchronous node. */
  const ASLEEP := Run(2, true, Some(2), {1}, false, Some(Async), false,
                      map[1 := Drive(1, Queued)], 3, {}, {}, 0, multiset{1}, {}, {})

  lemma AsleepHappens()
    ensures Reached(ASLEEP)
  {
    LeftOverHappens();
    var s := Launch(LEFT_OVER);
    s := GoToSleep(s, 2, Async);
    s := Then(s, CloseBatch(2));
    s := Then(s, CloseSubflow(2));
    assert s.drives == ASLEEP.drives;
  }

  /** The result is ready, the callback is awaited, and there is no drive. */
  const FORGOTTEN := Run(2, true, Some(2), {1}, false, Some(Async), true, map[], 3, {}, {}, 0, multiset{1}, {}, {})

  lemma ForgottenHappens()
    ensures Reached(FORGOTTEN)
  {
    AsleepHappens();
    var s := GoIn(ASLEEP, 1);
    s := Then(s, Check(1));
    s := Then(s, Complete);
    s := Then(s, CloseAsync(1));
    s := Then(s, Repost(1));
    assert s.drives == FORGOTTEN.drives;
  }

  /**
   A wake-up is lost when a caller registers again while a drive of the previous
   registration is left: the completion sees that drive at work and submits none, and the
   drive submits its emptied closure. From then on only a cancellation can happen.
   */
  lemma WakeupIsLost()
    ensures Reached(FORGOTTEN) && !Known(FORGOTTEN)
    ensures forall a :: Enabled(FORGOTTEN, a) ==> a.Cancel?
  {
    ForgottenHappens();
  }

  // ---------------------------------------------------------------- callbacks

  function One(b: bool): nat { if b then 1 else 0 }

  predicate Over(s: Run, t: nat) {
    1 <= t <= s.registrations && !(s.active && t == s.registrations)
  }

  /** A closure that is emptied, or about to be, belongs to a registration that is over. */
  ghost predicate TagInv(s: Run) {
    && (forall d :: d in s.drives ==> 1 <= s.drives[d].tag <= s.registrations)
    && (forall d :: d in s.drives && s.drives[d].place.Clearing? ==> Over(s, s.drives[d].tag))
    && (forall t :: t in s.emptied ==> Over(s, t))
    && (forall t :: t in s.beginning || t in s.posting ==> 1 <= t <= s.registrations)
    && (s.resume.Some? ==> 1 <= s.resume.value <= s.registrations)
    && (s.active ==> s.registrations >= 1)
  }

  ghost predicate CallInv(s: Run) {
    && (forall t :: t in s.beginning || t in s.posting ==> t !in s.refused)
    && s.beginning !! s.posting
    && (forall t :: t in s.refused || t in s.dropped ==> Over(s, t))
    && (forall t :: s.calls[t] + One(t in s.dropped) == One(Over(s, t)) + One(t in s.refused))
  }

  /** Steps that end or start a registration, or store a closure. */
  predicate Registers(a: Action) {
    a.RegisterBegin? || a.RegisterStore? || a.RegisterPost?
  }

  ghost predicate SameFields(s: Run, t: Run) {
    && t.registrations == s.registrations && t.active == s.active && t.resume == s.resume && t.emptied == s.emptied
    && t.beginning == s.beginning && t.posting == s.posting
    && t.calls == s.calls && t.refused == s.refused && t.dropped == s.dropped
  }

  lemma StepKeepsFields(s: Run, a: Action)
    requires Enabled(s, a) && OnStep(a)
    ensures SameFields(s, Apply(s, a))
  {
  }

  /** The other steps keep every field of the registrations. */
  lemma OthersKeepFields(s: Run, a: Action)
    requires Enabled(s, a) && !Registers(a) && !a.CloseDone? && !a.Clear?
    ensures SameFields(s, Apply(s, a))
  {
    if OnStep(a) {
      StepKeepsFields(s, a);
    }
  }

  /** A drive of `t` is one of `s`, and about to empty its closure only if it was, or a new one of the stored closure. */
  ghost predicate SameTag(s: Run, t: Run, d: nat)
    requires d in t.drives
  {
    if d in s.drives then
      t.drives[d].tag == s.drives[d].tag && (t.drives[d].place.Clearing? ==> s.drives[d].place.Clearing?)
    else
      Some(t.drives[d].tag) == s.resume && t.drives[d].place.Queued?
  }

  lemma OthersKeepTags(s: Run, a: Action, d: nat)
    requires Enabled(s, a) && !Registers(a) && !a.CloseDone? && !a.Clear? && d in Apply(s, a).drives
    requires s.next !in s.drives
    ensures SameTag(s, Apply(s, a), d)
  {
  }

  lemma TagStep(s: Run, a: Action)
    requires TagInv(s) && Enabled(s, a) && s.next !in s.drives
    ensures TagInv(Apply(s, a))
  {
    if Registers(a) {
      RegisterTags(s, a);
    } else if a.CloseDone? || a.Clear? {
      CloseTags(s, a);
    } else {
      OthersKeepFields(s, a);
      forall d | d in Apply(s, a).drives
        ensures SameTag(s, Apply(s, a), d)
      {
        OthersKeepTags(s, a, d);
      }
    }
  }

  lemma RegisterTags(s: Run, a: Action)
    requires TagInv(s) && Enabled(s, a) && Registers(a)
    ensures TagInv(Apply(s, a))
  {
    var t := Apply(s, a);
    assert forall u :: Over(s, u) ==> Over(t, u);
  }

  lemma CloseTags(s: Run, a: Action)
    requires TagInv(s) && Enabled(s, a) && (a.CloseDone? || a.Clear?)
    ensures TagInv(Apply(s, a))
  {
    var t := Apply(s, a);
    assert forall u :: Over(s, u) ==> Over(t, u);
  }

  lemma CallStep(s: Run, a: Action)
    requires TagInv(s) && CallInv(s) && Enabled(s, a)
    ensures CallInv(Apply(s, a))
  {
    if a.RegisterPost? {
      PostCalls(s, a.tag);
    } else if Registers(a) {
      RegisterCalls(s, a);
    } else if a.CloseDone? {
      CloseCalls(s, a.d);
    } else if !a.Clear? {
      OthersKeepFields(s, a);
    }
  }

  lemma PostCalls(s: Run, tag: nat)
    requires TagInv(s) && CallInv(s) && tag in s.posting
    ensures CallInv(PostOf(s, tag))
  {
    var t := PostOf(s, tag);
    if tag in s.emptied {
      assert Over(s, tag) && tag !in s.refused;
      assert s.active ==> s.registrations != tag && !Over(s, s.registrations);
    }
  }

  lemma RegisterCalls(s: Run, a: Action)
    requires TagInv(s) && CallInv(s) && Enabled(s, a) && (a.RegisterBegin? || a.RegisterStore?)
    ensures CallInv(Apply(s, a))
  {
    var t := Apply(s, a);
    assert forall u :: Over(s, u) <==> Over(t, u);
  }

  lemma CloseCalls(s: Run, d: nat)
    requires CallInv(s) && d in s.drives && (s.active ==> s.registrations >= 1)
    ensures CallInv(CloseDoneOf(s, d))
  {
    var t := CloseDoneOf(s, d);
    assert forall u :: u != s.registrations ==> (Over(s, u) <==> Over(t, u));
  }

  lemma {:induction false} CallHistory(states: seq<Run>, actions: seq<Action>, i: nat)
    requires IsHistory(states, actions) && i < |states|
    ensures TagInv(states[i]) && CallInv(states[i])
  {
    if i > 0 {
      CallHistory(states, actions, i - 1);
      assert IsStep(states, actions, i - 1);
      HistoryInv(states, actions, i - 1);
      TagStep(states[i - 1], actions[i - 1]);
      CallStep(states[i - 1], actions[i - 1]);
    }
  }

  /**
   How often a callback is called, exactly: once when its registration is over, once more
   if its first submission was refused, once less if the refusal of an earlier one dropped it.
   */
  lemma CallsExactly(states: seq<Run>, actions: seq<Action>, i: nat, t: nat)
    requires IsHistory(states, actions) && i < |states|
    ensures states[i].calls[t] + One(t in states[i].dropped) == One(Over(states[i], t)) + One(t in states[i].refused)
  {
    CallHistory(states, actions, i);
  }

  /** A cancellation between storing resume_drive and submitting it makes the callback fire twice. */
  lemma CalledTwice() returns (s: Run)
    ensures Reached(s) && s.registrations == 1 && s.calls[1] == 2
  {
    StartReached();
    s := Then(Initial(), RegisterBegin);
    s := Then(s, RegisterStore(1));
    s := Then(s, Cancel);
    s := Then(s, Begin(0));
    s := Then(s, Enter(0));
    s := Then(s, Abort(0));
    s := Then(s, CloseDone(0));
    s := Then(s, Clear(0));
    s := Then(s, RegisterPost(1));
  }

  // ---------------------------------------------------------------- careful callers

  predicate Registering(s: Run) {
    s.beginning != {} || s.posting != {}
  }

  /** Nothing is left of earlier registrations but closures about to be emptied. */
  ghost predicate Quiet(s: Run) {
    !Registering(s) && s.wait.None? && s.notifying == 0 && forall d :: d in s.drives ==> s.drives[d].place.Clearing?
  }

  /** Registers only in a quiet run and cancels only after execute_async has returned. */
  ghost predicate Careful(states: seq<Run>, actions: seq<Action>)
    requires |states| == |actions| + 1
  {
    forall i :: 0 <= i < |actions| ==>
                  (actions[i].RegisterBegin? ==> Quiet(states[i])) && (actions[i].Cancel? ==> !Registering(states[i]))
  }

  ghost predicate CarefulInv(s: Run) {
    && s.beginning + s.posting <= {s.registrations} && s.beginning !! s.posting
    && (Registering(s) ==> s.active && s.wait.None? && s.notifying == 0)
    && (Registering(s) ==> forall d :: d in s.drives ==> s.drives[d].place.Clearing?)
    && (forall d :: d in s.drives && !s.drives[d].place.Clearing? ==> s.drives[d].tag == s.registrations)
    && (s.resume.Some? ==> s.active && s.resume.value == s.registrations)
    && s.refused == {} && s.dropped == {}
  }

  lemma CarefulInsideStep(s: Run, a: Action)
    requires CarefulInv(s) && Enabled(s, a) && OnStep(a)
    ensures CarefulInv(Apply(s, a))
  {
    assert !Registering(s);
    StepKeepsFields(s, a);
  }

  lemma CarefulDriveStep(s: Run, a: Action)
    requires TagInv(s) && CarefulInv(s) && Enabled(s, a) && OnDrive(a) && !OnStep(a)
    ensures CarefulInv(Apply(s, a))
  {
    assert Registering(s) ==> a.Clear?;
  }

  lemma CarefulEnvironmentStep(s: Run, a: Action)
    requires TagInv(s) && CarefulInv(s) && Enabled(s, a) && !OnDrive(a)
    requires (a.RegisterBegin? ==> Quiet(s)) && (a.Cancel? ==> !Registering(s))
    ensures CarefulInv(Apply(s, a))
  {
  }

  lemma CarefulStep(s: Run, a: Action)
    requires TagInv(s) && CarefulInv(s) && Enabled(s, a)
    requires (a.RegisterBegin? ==> Quiet(s)) && (a.Cancel? ==> !Registering(s))
    ensures CarefulInv(Apply(s, a)) && !Loses(s, a)
  {
    if OnStep(a) {
      CarefulInsideStep(s, a);
    } else if OnDrive(a) {
      CarefulDriveStep(s, a);
    } else {
      CarefulEnvironmentStep(s, a);
    }
  }

  lemma {:induction false} CarefulHistory(states: seq<Run>, actions: seq<Action>, i: nat)
    requires IsHistory(states, actions) && Careful(states, actions) && i < |states|
    ensures CarefulInv(states[i])
    ensures forall j :: 0 <= j < i ==> !Loses(states[j], actions[j])
  {
    if i > 0 {
      CarefulHistory(states, actions, i - 1);
      assert IsStep(states, actions, i - 1);
      CallHistory(states, actions, i - 1);
      CarefulStep(states[i - 1], actions[i - 1]);
    }
  }

  /** Careful callers lose no wake-up, and each of their callbacks is called exactly once. */
  lemma CarefulCallers(states: seq<Run>, actions: seq<Action>, i: nat, t: nat)
    requires IsHistory(states, actions) && Careful(states, actions) && i < |states|
    ensures Known(states[i])
    ensures states[i].calls[t] == One(Over(states[i], t))
  {
    CarefulHistory(states, actions, i);
    KnownExactly(states, actions, i);
    CallsExactly(states, actions, i, t);
  }

  lemma RegistrationsGrow(s: Run, a: Action)
    requires Enabled(s, a)
    ensures Apply(s, a).registrations >= s.registrations
  {
  }

  lemma FirstRegisters(a: Action)
    requires Enabled(Initial(), a) && !a.RegisterBegin?
    ensures Apply(Initial(), a) == Initial()
  {
  }

  lemma {:induction false} BeforeTheFirst(states: seq<Run>, actions: seq<Action>, i: nat)
    requires IsHistory(states, actions) && i < |states| && states[i].registrations == 0
    ensures states[i] == Initial()
  {
    if i > 0 {
      assert IsStep(states, actions, i - 1);
      RegistrationsGrow(states[i - 1], actions[i - 1]);
      BeforeTheFirst(states, actions, i - 1);
      FirstRegisters(actions[i - 1]);
    }
  }

  /** A caller that registers once, and cancels only after execute_async has returned, is careful. */
  lemma OnceIsCareful(states: seq<Run>, actions: seq<Action>)
    requires IsHistory(states, actions)
    requires forall i :: 0 <= i < |actions| && actions[i].RegisterBegin? ==> states[i].registrations == 0
    requires forall i :: 0 <= i < |actions| && actions[i].Cancel? ==> !Registering(states[i])
    ensures Careful(states, actions)
  {
    forall i | 0 <= i < |actions| && actions[i].RegisterBegin?
      ensures Quiet(states[i])
    {
      BeforeTheFirst(states, actions, i);
    }
  }
}
