/**
 The bounded thread pool of src/scheduler.cpp.

 Pool holds the fields under the mutex; the locked sections of schedule,
 worker_loop and shutdown are methods of the class and steps of a machine in which
 any number of producers and workers interleave, sleep on the two condition
 variables, and may wake spuriously.
 */
module ThreadPool {
  type Task = nat

  datatype FullPolicy = Reject | Block | CallerRuns

  datatype Pool = Pool(capacity: nat, policy: FullPolicy, maxInlineDepth: nat, stopping: bool, queue: seq<Task>)

  /** How a submission leaves the locked section (or the nested-submission test before it). */
  datatype Submission = Queued | Refused | RunsInline | MustWait

  /** schedule called on a worker of this pool, other than as a continuation. */
  function Nested(p: Pool, inlineDepth: nat): Submission {
    if p.policy == CallerRuns && inlineDepth < p.maxInlineDepth then RunsInline else Refused
  }

  function SubmitSection(p: Pool, t: Task): (Pool, Submission) {
    if p.stopping then (p, Refused)
    else if |p.queue| < p.capacity then (p.(queue := p.queue + [t]), Queued)
    else match p.policy
      case Block => (p, MustWait)
      case CallerRuns => (p, RunsInline)
      case Reject => (p, Refused)
  }

  datatype Turn = Sleep | Exit | Run(task: Task)

  function WorkerSection(p: Pool): (Pool, Turn) {
    if p.queue == [] then (p, if p.stopping then Exit else Sleep)
    else (p.(queue := p.queue[1..]), Run(p.queue[0]))
  }

  class ThreadPoolScheduler {
    const capacity: nat
    const policy: FullPolicy
    const maxInlineDepth: nat
    var stopping: bool
    var queue: seq<Task>

    ghost function View(): Pool
      reads this
    {
      Pool(capacity, policy, maxInlineDepth, stopping, queue)
    }

    /** A zero capacity means 64 places per worker. */
    constructor (workers: nat, capacity: nat, policy: FullPolicy, maxInlineDepth: nat)
      requires workers >= 1
      ensures !stopping && queue == [] && this.capacity >= 1
      ensures capacity > 0 ==> this.capacity == capacity
      ensures this.policy == policy && this.maxInlineDepth == maxInlineDepth
    {
      this.capacity := if capacity == 0 then workers * 64 else capacity;
      this.policy, this.maxInlineDepth := policy, maxInlineDepth;
      stopping, queue := false, [];
    }

    method Submit(t: Task) returns (outcome: Submission)
      modifies this
      ensures (View(), outcome) == SubmitSection(old(View()), t)
    {
      if stopping {
        return Refused;
      }
      if |queue| >= capacity {
        match policy {
          case Block => return MustWait;
          case CallerRuns => return RunsInline;
          case Reject => return Refused;
        }
      }
      queue := queue + [t];
      outcome := Queued;
    }

    method WorkerTurn() returns (turn: Turn)
      modifies this
      ensures (View(), turn) == WorkerSection(old(View()))
    {
      if !stopping && queue == [] {
        return Sleep;
      }
      if stopping && queue == [] {
        return Exit;
      }
      turn := Run(queue[0]);
      queue := queue[1..];
    }

    method Stop()
      modifies this
      ensures View() == old(View()).(stopping := true)
    {
      stopping := true;
    }
  }

  // ---------------------------------------------------------------- machine

  /** A busy worker runs what was `place`-th to start. */
  datatype Worker = Awake | Asleep | Busy(place: nat) | Exited

  /**
   `asleep` and `awake` are producers blocked on a full queue, by ticket, before
   and after a wake-up; `notices` are notify_one calls still to come, `broadcast`
   the notify_all of shutdown. `enqueued` and `started` are histories of tasks,
   `finished` lists the places of completed starts.
   */
  datatype State = State(
    pool: Pool, workers: seq<Worker>, asleep: map<nat, Task>, awake: map<nat, Task>,
    notices: nat, broadcast: bool,
    enqueued: seq<Task>, started: seq<Task>, finished: seq<nat>, inlined: seq<Task>, refused: seq<Task>)

  datatype Action =
    | SubmitNested(task: Task, depth: nat)
    | Submit(task: Task, ticket: nat)
    | Retry(ticket: nat)
    | Notify(worker: nat)
    | Turn(worker: nat, ticket: nat)
    | Finish(worker: nat)
    | Shutdown
    | Broadcast
    | SpuriousWorker(worker: nat)
    | SpuriousProducer(ticket: nat)

  function Initial(pool: Pool, workers: nat): State {
    State(pool, seq(workers, _ => Awake), map[], map[], 0, false, [], [], [], [], [])
  }

  predicate Enabled(s: State, a: Action) {
    match a
    case SubmitNested(_, _) => true
    case Submit(_, k) => k !in s.asleep && k !in s.awake
    case Retry(k) => k in s.awake
    case Notify(w) => s.notices > 0 && (Asleep in s.workers ==> w < |s.workers| && s.workers[w] == Asleep)
    case Turn(w, k) => w < |s.workers| && s.workers[w] == Awake && (s.asleep != map[] ==> k in s.asleep)
    case Finish(w) => w < |s.workers| && s.workers[w].Busy?
    case Shutdown => !s.pool.stopping
    case Broadcast => s.broadcast
    case SpuriousWorker(w) => w < |s.workers| && s.workers[w] == Asleep
    case SpuriousProducer(k) => k in s.asleep
  }

  function Admit(s: State, t: Task): State {
    s.(pool := SubmitSection(s.pool, t).0, notices := s.notices + 1, enqueued := s.enqueued + [t])
  }

  function Wake(s: State, k: nat): State {
    if k in s.asleep then s.(awake := s.awake[k := s.asleep[k]], asleep := s.asleep - {k}) else s
  }

  function Submitted(s: State, t: Task, k: nat): State {
    match SubmitSection(s.pool, t).1
    case Queued => Admit(s, t)
    case Refused => s.(refused := s.refused + [t])
    case RunsInline => s.(inlined := s.inlined + [t])
    case MustWait => s.(asleep := s.asleep[k := t])
  }

  function Turned(s: State, w: nat, k: nat): State
    requires w < |s.workers|
  {
    var (pool, turn) := WorkerSection(s.pool);
    match turn
    case Sleep => s.(workers := s.workers[w := Asleep])
    case Exit => s.(workers := s.workers[w := Exited])
    case Run(t) => Wake(s.(pool := pool, workers := s.workers[w := Busy(|s.started|)], started := s.started + [t]), k)
  }

  function WakeAll(workers: seq<Worker>): seq<Worker> {
    seq(|workers|, i requires 0 <= i < |workers| => if workers[i] == Asleep then Awake else workers[i])
  }

  function Apply(s: State, a: Action): State
    requires Enabled(s, a)
  {
    match a
    case SubmitNested(t, depth) =>
      if Nested(s.pool, depth) == RunsInline then s.(inlined := s.inlined + [t]) else s.(refused := s.refused + [t])
    case Submit(t, k) => Submitted(s, t, k)
    case Retry(k) =>
      var t := s.awake[k];
      var rest := s.(awake := s.awake - {k});
      if s.pool.stopping then rest.(refused := s.refused + [t])
      else if |s.pool.queue| < s.pool.capacity then Admit(rest, t)
      else rest.(asleep := s.asleep[k := t])
    case Notify(w) =>
      s.(notices := s.notices - 1,
         workers := if w < |s.workers| && s.workers[w] == Asleep then s.workers[w := Awake] else s.workers)
    case Turn(w, k) => Turned(s, w, k)
    case Finish(w) => s.(workers := s.workers[w := Awake], finished := s.finished + [s.workers[w].place])
    case Shutdown => s.(pool := s.pool.(stopping := true), broadcast := true)
    case Broadcast =>
      s.(broadcast := false, workers := WakeAll(s.workers), awake := s.awake + s.asleep, asleep := map[])
    case SpuriousWorker(w) => s.(workers := s.workers[w := Awake])
    case SpuriousProducer(k) => Wake(s, k)
  }

  ghost predicate IsHistory(pool: Pool, workers: nat, states: seq<State>, actions: seq<Action>) {
    && pool.queue == [] && !pool.stopping && pool.capacity >= 1 && workers >= 1
    && |states| == |actions| + 1
    && states[0] == Initial(pool, workers)
    && forall i :: 0 <= i < |actions| ==>
                     Enabled(states[i], actions[i]) && states[i + 1] == Apply(states[i], actions[i])
  }

  // ---------------------------------------------------------------- invariant

  ghost predicate Fifo(s: State) {
    && |s.pool.queue| <= s.pool.capacity
    && s.enqueued == s.started + s.pool.queue
  }

  ghost predicate RunsPlace(s: State, place: nat) {
    exists w :: 0 <= w < |s.workers| && s.workers[w] == Busy(place)
  }

  /** Every started place is finished or on one worker, never both and never twice. */
  ghost predicate RunOnce(s: State) {
    && (forall v, w :: 0 <= v < w < |s.workers| && s.workers[v].Busy? ==> s.workers[v] != s.workers[w])
    && (forall i, j :: 0 <= i < j < |s.finished| ==> s.finished[i] != s.finished[j])
    && (forall w :: 0 <= w < |s.workers| && s.workers[w].Busy? ==>
                      s.workers[w].place < |s.started| && s.workers[w].place !in s.finished)
    && (forall k :: k in s.finished ==> k < |s.started|)
    && (forall k :: 0 <= k < |s.started| ==> k in s.finished || RunsPlace(s, k))
  }

  ghost predicate ExitedLast(s: State) {
    Exited in s.workers ==> s.pool.stopping && s.pool.queue == []
  }

  ghost predicate WorkerUp(s: State) {
    exists w :: 0 <= w < |s.workers| && (s.workers[w].Awake? || s.workers[w].Busy?)
  }

  /** A backlog has a worker that is up, or a notification on its way to one; stopping wakes all. */
  ghost predicate WorkersKept(s: State) {
    && |s.workers| >= 1
    && (s.pool.queue != [] ==> s.notices > 0 || WorkerUp(s))
    && (s.pool.stopping && !s.broadcast ==> Asleep !in s.workers)
    && (s.broadcast ==> s.pool.stopping)
  }

  /** While producers sleep, every free place has a producer awake to take it. */
  ghost predicate ProducersKept(s: State) {
    && s.asleep.Keys !! s.awake.Keys
    && (s.pool.stopping && !s.broadcast ==> s.asleep == map[])
    && (!s.pool.stopping && s.asleep != map[] ==> s.pool.capacity - |s.pool.queue| <= |s.awake|)
  }

  ghost predicate Inv(s: State) {
    Fifo(s) && RunOnce(s) && ExitedLast(s) && WorkersKept(s) && ProducersKept(s)
  }

  lemma AdmitFifo(s: State, t: Task)
    requires Fifo(s) && SubmitSection(s.pool, t).1 == Queued
    ensures Fifo(Admit(s, t))
  {
    assert s.started + (s.pool.queue + [t]) == (s.started + s.pool.queue) + [t];
  }

  lemma FifoStep(s: State, a: Action)
    requires Fifo(s) && Enabled(s, a)
    ensures Fifo(Apply(s, a))
  {
    match a
    case Submit(t, _) => if SubmitSection(s.pool, t).1 == Queued { AdmitFifo(s, t); }
    case Retry(k) =>
      if SubmitSection(s.pool, s.awake[k]).1 == Queued { AdmitFifo(s.(awake := s.awake - {k}), s.awake[k]); }
    case Turn(w, k) =>
      if s.pool.queue != [] {
        assert s.pool.queue == [s.pool.queue[0]] + s.pool.queue[1..];
        assert s.started + s.pool.queue == (s.started + [s.pool.queue[0]]) + s.pool.queue[1..];
      }
    case _ =>
  }

  lemma FinishOnce(s: State, w: nat)
    requires RunOnce(s) && Enabled(s, Finish(w))
    ensures RunOnce(Apply(s, Finish(w)))
  {
    var t := Apply(s, Finish(w));
    var done := s.workers[w].place;
    assert forall k :: k in t.finished <==> k in s.finished || k == done;
    forall k | 0 <= k < |t.started|
      ensures k in t.finished || RunsPlace(t, k)
    {
      if k !in t.finished {
        assert RunsPlace(s, k);
        var v :| 0 <= v < |s.workers| && s.workers[v] == Busy(k);
        assert t.workers[v] == Busy(k);
      }
    }
  }

  /** Workers other than w keep their places. */
  lemma PlacesStay(s: State, t: State, w: nat)
    requires RunOnce(s) && |t.workers| == |s.workers| && t.finished == s.finished
    requires w < |s.workers| ==> !s.workers[w].Busy?
    requires forall v :: 0 <= v < |s.workers| && v != w && s.workers[v].Busy? ==> t.workers[v] == s.workers[v]
    requires forall v :: 0 <= v < |s.workers| && v != w && !s.workers[v].Busy? ==> !t.workers[v].Busy?
    requires if w < |s.workers| && t.workers[w].Busy?
             then t.workers[w] == Busy(|s.started|) && |t.started| == |s.started| + 1
             else t.started == s.started
    ensures RunOnce(t)
  {
    forall k | 0 <= k < |t.started|
      ensures k in t.finished || RunsPlace(t, k)
    {
      if k == |s.started| {
        assert t.workers[w] == Busy(k);
      } else if k !in t.finished {
        assert RunsPlace(s, k);
        var v :| 0 <= v < |s.workers| && s.workers[v] == Busy(k);
        assert t.workers[v] == Busy(k);
      }
    }
  }

  lemma RunOnceStep(s: State, a: Action)
    requires RunOnce(s) && Enabled(s, a)
    ensures RunOnce(Apply(s, a))
  {
    if a.Finish? {
      FinishOnce(s, a.worker);
    } else {
      PlacesStay(s, Apply(s, a), if a.Turn? then a.worker else |s.workers|);
    }
  }

  lemma ExitedStep(s: State, a: Action)
    requires ExitedLast(s) && Enabled(s, a)
    ensures ExitedLast(Apply(s, a))
  {
    var t := Apply(s, a);
    if Exited in t.workers && Exited !in s.workers {
      assert a.Turn?;
    }
  }

  lemma WorkersStep(s: State, a: Action)
    requires WorkersKept(s) && ExitedLast(s) && Enabled(s, a)
    ensures WorkersKept(Apply(s, a))
  {
    var t := Apply(s, a);
    match a
    case Notify(w) =>
      if s.pool.queue != [] { NotifyWakes(s, w); }
    case Turn(w, k) =>
      if t.pool.queue != [] { assert t.workers[w].Busy?; }
    case Finish(w) => assert t.workers[w].Awake?;
    case SpuriousWorker(w) => assert t.workers[w].Awake?;
    case Broadcast => BroadcastWakes(s);
    case _ => assert t.workers == s.workers;
  }

  lemma BroadcastWakes(s: State)
    requires WorkersKept(s) && s.broadcast
    ensures WorkersKept(Apply(s, Broadcast))
  {
    var t := Apply(s, Broadcast);
    if WorkerUp(s) {
      var w :| 0 <= w < |s.workers| && (s.workers[w].Awake? || s.workers[w].Busy?);
      assert t.workers[w] == s.workers[w];
    }
  }

  /** A notify_one with a backlog leaves a worker up. */
  lemma NotifyWakes(s: State, w: nat)
    requires WorkersKept(s) && ExitedLast(s) && Enabled(s, Notify(w)) && s.pool.queue != []
    ensures WorkerUp(Apply(s, Notify(w)))
  {
    var t := Apply(s, Notify(w));
    if Asleep in s.workers {
      assert t.workers[w].Awake?;
    } else {
      assert s.workers[0] in s.workers;
      assert t.workers[0].Awake? || t.workers[0].Busy?;
    }
  }

  lemma ProducersStep(s: State, a: Action)
    requires ProducersKept(s) && |s.pool.queue| <= s.pool.capacity && Enabled(s, a)
    ensures ProducersKept(Apply(s, a))
  {
    if a.Retry? {
      ProducersRetry(s, a);
    } else if a.Turn? || a.SpuriousProducer? {
      ProducersWake(s, a);
    } else {
      ProducersOther(s, a);
    }
  }

  lemma ProducersRetry(s: State, a: Action)
    requires ProducersKept(s) && |s.pool.queue| <= s.pool.capacity && Enabled(s, a) && a.Retry?
    ensures ProducersKept(Apply(s, a))
  {
    DropOne(s.awake, a.ticket);
  }

  lemma ProducersWake(s: State, a: Action)
    requires ProducersKept(s) && |s.pool.queue| <= s.pool.capacity && Enabled(s, a) && (a.Turn? || a.SpuriousProducer?)
    ensures ProducersKept(Apply(s, a))
  {
    WakeOne(s, a.ticket);
  }

  lemma ProducersOther(s: State, a: Action)
    requires ProducersKept(s) && |s.pool.queue| <= s.pool.capacity && Enabled(s, a)
    requires !a.Retry? && !a.Turn? && !a.SpuriousProducer?
    ensures ProducersKept(Apply(s, a))
  {
  }

  lemma DropOne(m: map<nat, Task>, k: nat)
    requires k in m
    ensures |m - {k}| == |m| - 1
  {
    assert (m - {k}).Keys == m.Keys - {k};
  }

  lemma WakeOne(s: State, k: nat)
    requires s.asleep.Keys !! s.awake.Keys
    ensures var t := Wake(s, k);
            t.asleep.Keys !! t.awake.Keys && |t.awake| == |s.awake| + if k in s.asleep then 1 else 0
  {
    if k in s.asleep {
      assert s.awake[k := s.asleep[k]].Keys == s.awake.Keys + {k};
    }
  }

  lemma ActionKeepsInv(s: State, a: Action)
    requires Inv(s) && Enabled(s, a)
    ensures Inv(Apply(s, a))
  {
    FifoStep(s, a);
    RunOnceStep(s, a);
    ExitedStep(s, a);
    WorkersStep(s, a);
    ProducersStep(s, a);
  }

  lemma {:induction false} HistoryInv(pool: Pool, workers: nat, states: seq<State>, actions: seq<Action>, i: nat)
    requires IsHistory(pool, workers, states, actions) && i < |states|
    ensures Inv(states[i]) && states[i].pool.capacity == pool.capacity
  {
    if i > 0 {
      HistoryInv(pool, workers, states, actions, i - 1);
      ActionKeepsInv(states[i - 1], actions[i - 1]);
      assert states[i] == Apply(states[i - 1], actions[i - 1]);
    }
  }

  // ---------------------------------------------------------------- theorems

  /** The queue is bounded, and tasks start in the order they were queued, each place once. */
  lemma BoundedFifo(pool: Pool, workers: nat, states: seq<State>, actions: seq<Action>, i: nat)
    requires IsHistory(pool, workers, states, actions) && i < |states|
    ensures |states[i].pool.queue| <= pool.capacity
    ensures states[i].started <= states[i].enqueued
    ensures states[i].enqueued == states[i].started + states[i].pool.queue
  {
    HistoryInv(pool, workers, states, actions, i);
  }

  lemma DrainedStep(s: State, a: Action)
    requires Inv(s) && Enabled(s, a) && (forall w :: w in s.workers ==> w == Exited)
    ensures Apply(s, a).workers == s.workers && Apply(s, a).enqueued == s.enqueued && Apply(s, a).finished == s.finished
  {
    assert s.workers[0] in s.workers;
    assert forall w :: 0 <= w < |s.workers| ==> s.workers[w] in s.workers;
    if a.Broadcast? {
      assert WakeAll(s.workers) == s.workers;
    }
  }

  /** With all workers gone every queued task has run, once. */
  lemma AllExited(s: State)
    requires Fifo(s) && RunOnce(s) && ExitedLast(s) && |s.workers| >= 1
    requires forall w :: w in s.workers ==> w == Exited
    ensures s.pool.queue == [] && s.enqueued == s.started
    ensures forall k :: 0 <= k < |s.enqueued| <==> k in s.finished
  {
    assert s.workers[0] in s.workers;
    assert forall w :: 0 <= w < |s.workers| ==> s.workers[w] in s.workers;
    assert forall k :: !RunsPlace(s, k);
  }

  /**
   Orderly shutdown: once every worker has exited, nothing is queued or running, now
   and at every later time, and everything ever queued has run exactly once.
   */
  lemma {:induction false} ShutdownRunsEverything(
    pool: Pool, workers: nat, states: seq<State>, actions: seq<Action>, i: nat, j: nat)
    requires IsHistory(pool, workers, states, actions) && i <= j < |states|
    requires forall w :: w in states[i].workers ==> w == Exited
    ensures states[j].pool.queue == [] && states[j].workers == states[i].workers
    ensures states[j].enqueued == states[i].enqueued == states[j].started
    ensures forall k :: 0 <= k < |states[j].enqueued| <==> k in states[j].finished
    ensures forall k, l :: 0 <= k < l < |states[j].finished| ==> states[j].finished[k] != states[j].finished[l]
    decreases j
  {
    if i < j {
      ShutdownRunsEverything(pool, workers, states, actions, i, j - 1);
      HistoryInv(pool, workers, states, actions, j - 1);
      DrainedStep(states[j - 1], actions[j - 1]);
      assert states[j] == Apply(states[j - 1], actions[j - 1]);
    }
    HistoryInv(pool, workers, states, actions, j);
    AllExited(states[j]);
  }

  /**
   No lost wake-up. A queued task always has a worker that is up or a notification
   in flight; a stopped and announced pool has no sleepers; and while the pool runs,
   a producer sleeps on a full queue only, unless enough others are awake to fill it.
   */
  lemma SleepersAreWoken(pool: Pool, workers: nat, states: seq<State>, actions: seq<Action>, i: nat)
    requires IsHistory(pool, workers, states, actions) && i < |states|
    ensures var s := states[i];
            && (s.pool.queue != [] ==> s.notices > 0 || WorkerUp(s))
            && (s.pool.stopping && !s.broadcast ==> Asleep !in s.workers && s.asleep == map[])
            && (!s.pool.stopping && s.asleep != map[] && s.awake == map[] ==> |s.pool.queue| == pool.capacity)
  {
    HistoryInv(pool, workers, states, actions, i);
  }

  // ---------------------------------------------------------------- every submission is answered

  /** What becomes of a submission, by policy: queued, asleep, run by the caller or refused. */
  lemma SubmissionsAnswered(s: State, t: Task, k: nat, depth: nat)
    requires Enabled(s, Submit(t, k))
    ensures var u := Apply(s, Submit(t, k));
            var p := s.pool;
            var full := |p.queue| >= p.capacity;
            && (p.stopping ==> u == s.(refused := s.refused + [t]))
            && (!p.stopping && !full ==>
                  u == s.(pool := p.(queue := p.queue + [t]), notices := s.notices + 1, enqueued := s.enqueued + [t]))
            && (!p.stopping && full && p.policy == Block ==> u == s.(asleep := s.asleep[k := t]))
            && (!p.stopping && full && p.policy == CallerRuns ==> u == s.(inlined := s.inlined + [t]))
            && (!p.stopping && full && p.policy == Reject ==> u == s.(refused := s.refused + [t]))
    ensures Enabled(s, SubmitNested(t, depth))
    ensures var u := Apply(s, SubmitNested(t, depth));
            if s.pool.policy == CallerRuns && depth < s.pool.maxInlineDepth then u == s.(inlined := s.inlined + [t])
            else u == s.(refused := s.refused + [t])
  {
  }

  /** A producer that was woken: refused when the pool stops, queued when there is room, asleep again otherwise. */
  lemma RetriesAnswered(s: State, k: nat)
    requires Enabled(s, Retry(k))
    ensures var u := Apply(s, Retry(k));
            var t, rest := s.awake[k], s.(awake := s.awake - {k});
            && (s.pool.stopping ==> u == rest.(refused := s.refused + [t]))
            && (!s.pool.stopping && |s.pool.queue| < s.pool.capacity ==>
                  u == rest.(pool := s.pool.(queue := s.pool.queue + [t]), notices := s.notices + 1, enqueued := s.enqueued + [t]))
            && (!s.pool.stopping && |s.pool.queue| >= s.pool.capacity ==> u == rest.(asleep := s.asleep[k := t]))
  {
  }

  function Submissions(actions: seq<Action>, n: nat): nat
    requires n <= |actions|
  {
    if n == 0 then 0
    else Submissions(actions, n - 1) + if actions[n - 1].Submit? || actions[n - 1].SubmitNested? then 1 else 0
  }

  /** Every submission is in one place: queued, run by its caller, refused, or with a producer that waits. */
  function Places(s: State): nat {
    |s.enqueued| + |s.inlined| + |s.refused| + |s.asleep| + |s.awake|
  }

  lemma AddOne(asleep: map<nat, Task>, awake: map<nat, Task>, k: nat)
    requires asleep.Keys !! awake.Keys && k in awake
    ensures |asleep[k := awake[k]]| == |asleep| + 1
  {
    assert asleep[k := awake[k]].Keys == asleep.Keys + {k};
    assert |asleep[k := awake[k]].Keys| == |asleep.Keys| + 1;
  }

  lemma PutOne(m: map<nat, Task>, k: nat, t: Task)
    requires k !in m
    ensures |m[k := t]| == |m| + 1
  {
    assert m[k := t].Keys == m.Keys + {k};
    assert |m[k := t].Keys| == |m.Keys| + 1;
  }

  lemma SubmitPlaces(s: State, t: Task, k: nat)
    requires Enabled(s, Submit(t, k))
    ensures Places(Submitted(s, t, k)) == Places(s) + 1
  {
    PutOne(s.asleep, k, t);
  }

  lemma RetryPlaces(s: State, k: nat)
    requires Inv(s) && Enabled(s, Retry(k))
    ensures Places(Apply(s, Retry(k))) == Places(s)
  {
    DropOne(s.awake, k);
    AddOne(s.asleep, s.awake, k);
  }

  lemma WakePlaces(s: State, k: nat)
    requires s.asleep.Keys !! s.awake.Keys
    ensures Places(Wake(s, k)) == Places(s)
  {
    if k in s.asleep {
      MoveOne(s.asleep, s.awake, k);
    }
  }

  lemma TurnPlaces(s: State, w: nat, k: nat)
    requires w < |s.workers| && s.asleep.Keys !! s.awake.Keys
    ensures Places(Turned(s, w, k)) == Places(s)
  {
    if s.pool.queue != [] {
      var t := s.pool.queue[0];
      WakePlaces(s.(pool := WorkerSection(s.pool).0, workers := s.workers[w := Busy(|s.started|)], started := s.started + [t]), k);
    }
  }

  lemma PlacesStep(s: State, a: Action)
    requires Inv(s) && Enabled(s, a)
    ensures Places(Apply(s, a)) == Places(s) + if a.Submit? || a.SubmitNested? then 1 else 0
  {
    match a
    case Submit(t, k) => SubmitPlaces(s, t, k);
    case Retry(k) => RetryPlaces(s, k);
    case Turn(w, k) => TurnPlaces(s, w, k);
    case SpuriousProducer(k) => WakePlaces(s, k);
    case Broadcast => MergeSize(s.awake, s.asleep);
    case _ =>
  }

  lemma MoveOne(from: map<nat, Task>, to: map<nat, Task>, k: nat)
    requires k in from && from.Keys !! to.Keys
    ensures |from - {k}| == |from| - 1 && |to[k := from[k]]| == |to| + 1
  {
    DropOne(from, k);
    assert to[k := from[k]].Keys == to.Keys + {k};
    assert |to[k := from[k]].Keys| == |to.Keys| + 1;
  }

  lemma {:induction false} MergeSize(a: map<nat, Task>, b: map<nat, Task>)
    requires a.Keys !! b.Keys
    ensures |a + b| == |a| + |b|
  {
    assert (a + b).Keys == a.Keys + b.Keys;
    assert |(a + b).Keys| == |a.Keys| + |b.Keys|;
  }

  lemma {:induction false} EverySubmissionIsAccounted(pool: Pool, workers: nat, states: seq<State>, actions: seq<Action>, i: nat)
    requires IsHistory(pool, workers, states, actions) && i < |states|
    ensures Places(states[i]) == Submissions(actions, i)
  {
    if i > 0 {
      EverySubmissionIsAccounted(pool, workers, states, actions, i - 1);
      HistoryInv(pool, workers, states, actions, i - 1);
      PlacesStep(states[i - 1], actions[i - 1]);
      assert states[i] == Apply(states[i - 1], actions[i - 1]);
    }
  }

  // ---------------------------------------------------------------- the pool settles

  /** Steps of the pool itself: not a new submission, a shutdown or a spurious wake-up. */
  predicate Working(a: Action) {
    a.Retry? || a.Notify? || a.Turn? || a.Finish? || a.Broadcast?
  }

  function WorkerWeight(w: Worker): nat {
    match w
    case Awake => 1
    case Busy(_) => 2
    case _ => 0
  }

  function WorkersWeight(workers: seq<Worker>): nat {
    if workers == [] then 0 else WorkersWeight(workers[..|workers| - 1]) + WorkerWeight(workers[|workers| - 1])
  }

  lemma {:induction false} WeightUpdate(workers: seq<Worker>, i: nat, w: Worker)
    requires i < |workers|
    ensures WorkersWeight(workers[i := w]) + WorkerWeight(workers[i]) == WorkersWeight(workers) + WorkerWeight(w)
  {
    var n := |workers| - 1;
    if i < n {
      WeightUpdate(workers[..n], i, w);
      assert workers[i := w][..n] == workers[..n][i := w];
    } else {
      assert workers[i := w][..n] == workers[..n];
    }
  }

  lemma {:induction false} WakeAllWeight(workers: seq<Worker>)
    ensures WorkersWeight(WakeAll(workers)) <= WorkersWeight(workers) + |workers|
  {
    if workers != [] {
      var n := |workers| - 1;
      WakeAllWeight(workers[..n]);
      assert WakeAll(workers)[..n] == WakeAll(workers[..n]);
    }
  }

  /** What the pool can still do on its own. */
  function Work(s: State): nat {
    6 * (|s.asleep| + |s.awake|) + |s.awake| + 4 * |s.pool.queue| + 2 * s.notices + WorkersWeight(s.workers)
    + if s.broadcast then |s.workers| + |s.asleep| + 1 else 0
  }

  lemma WorkLowers(s: State, a: Action)
    requires Inv(s) && Enabled(s, a) && Working(a)
    ensures Work(Apply(s, a)) < Work(s)
  {
    match a
    case Retry(k) => DropOne(s.awake, k); AddOne(s.asleep, s.awake, k);
    case Notify(w) => if w < |s.workers| { WeightUpdate(s.workers, w, Awake); }
    case Turn(w, k) => TurnLowers(s, w, k);
    case Finish(w) => WeightUpdate(s.workers, w, Awake);
    case Broadcast =>
      WakeAllWeight(s.workers);
      MergeSize(s.awake, s.asleep);
  }

  lemma TurnLowers(s: State, w: nat, k: nat)
    requires Inv(s) && Enabled(s, Turn(w, k))
    ensures Work(Apply(s, Turn(w, k))) < Work(s)
  {
    WeightUpdate(s.workers, w, Asleep);
    WeightUpdate(s.workers, w, Exited);
    WeightUpdate(s.workers, w, Busy(|s.started|));
    if k in s.asleep {
      MoveOne(s.asleep, s.awake, k);
    }
  }

  /** Nothing is left to do: nothing queued or running, and a pool that stopped has neither workers nor producers left. */
  ghost predicate Settled(s: State) {
    && s.pool.queue == [] && s.notices == 0 && !s.broadcast && s.awake == map[]
    && (forall w :: w in s.workers ==> w == Asleep || w == Exited)
    && (s.pool.stopping ==> s.asleep == map[] && forall w :: w in s.workers ==> w == Exited)
    && (!s.pool.stopping ==> s.asleep == map[])
  }

  /** Unless it has settled, the pool can take a step of its own. */
  lemma NeverStuck(pool: Pool, workers: nat, states: seq<State>, actions: seq<Action>, i: nat) returns (a: Action)
    requires IsHistory(pool, workers, states, actions) && i < |states| && !Settled(states[i])
    ensures Working(a) && Enabled(states[i], a)
  {
    HistoryInv(pool, workers, states, actions, i);
    var s := states[i];
    var k: nat := 0;
    if s.asleep != map[] {
      assert s.asleep.Keys != {};
      k :| k in s.asleep.Keys;
    }
    if s.broadcast {
      a := Broadcast;
    } else if s.awake != map[] {
      assert s.awake.Keys != {};
      var j :| j in s.awake.Keys;
      a := Retry(j);
    } else if w :| 0 <= w < |s.workers| && s.workers[w].Busy? {
      a := Finish(w);
    } else if w :| 0 <= w < |s.workers| && s.workers[w].Awake? {
      a := Turn(w, k);
    } else {
      if Asleep in s.workers {
        var w :| 0 <= w < |s.workers| && s.workers[w] == Asleep;
        a := Notify(w);
      } else {
        a := Notify(0);
      }
      assert forall w :: w in s.workers ==> w == Asleep || w == Exited;
    }
  }

  /** A scheduler: some enabled step of the pool for every state that has not settled. */
  ghost predicate Schedules(pick: State -> Action) {
    forall s :: Inv(s) && !Settled(s) ==> Working(pick(s)) && Enabled(s, pick(s))
  }

  ghost predicate Takes(path: seq<State>, pick: State -> Action, i: nat)
    requires i + 1 < |path|
  {
    Enabled(path[i], pick(path[i])) && path[i + 1] == Apply(path[i], pick(path[i]))
  }

  lemma {:induction false} RunsToRest(s: State, pick: State -> Action) returns (path: seq<State>)
    requires Inv(s) && Schedules(pick)
    ensures path != [] && path[0] == s && Inv(path[|path| - 1]) && Settled(path[|path| - 1])
    ensures forall i :: 0 <= i < |path| - 1 ==> Takes(path, pick, i)
    decreases Work(s)
  {
    path := [s];
    if !Settled(s) {
      ActionKeepsInv(s, pick(s));
      WorkLowers(s, pick(s));
      var rest := RunsToRest(Apply(s, pick(s)), pick);
      path := [s] + rest;
      forall i | 0 <= i < |path| - 1
        ensures Takes(path, pick, i)
      {
        if i > 0 {
          assert Takes(rest, pick, i - 1);
        }
      }
    }
  }

  /**
   Nothing is left behind: when submissions cease, every scheduler brings the pool to rest, and
   then everything that was ever queued has run to its end, and no producer waits.
   */
  lemma EveryTaskRuns(pool: Pool, workers: nat, states: seq<State>, actions: seq<Action>, pick: State -> Action)
    returns (path: seq<State>)
    requires IsHistory(pool, workers, states, actions) && Schedules(pick)
    ensures path != [] && path[0] == states[|actions|] && forall i :: 0 <= i < |path| - 1 ==> Takes(path, pick, i)
    ensures var t := path[|path| - 1];
            && Settled(t) && t.started == t.enqueued
            && forall k :: 0 <= k < |t.enqueued| <==> k in t.finished
  {
    HistoryInv(pool, workers, states, actions, |actions|);
    path := RunsToRest(states[|actions|], pick);
    NobodyRuns(path[|path| - 1]);
  }

  lemma NobodyRuns(t: State)
    requires Fifo(t) && RunOnce(t) && Settled(t)
    ensures t.started == t.enqueued && forall k :: 0 <= k < |t.enqueued| <==> k in t.finished
  {
    assert forall w :: 0 <= w < |t.workers| ==> t.workers[w] in t.workers;
    assert forall k :: !RunsPlace(t, k);
  }
}
