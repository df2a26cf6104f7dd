/**
 The asynchronous trace sink of src/trace.cpp: producers emit into a bounded
 queue, one worker exports, flush waits until everything is out.

 Sink holds the fields under the mutex. The locked sections are methods of the
 class and steps of a machine with any number of producers and flushers.
 */
module TraceSink {
  datatype FullPolicy = DropNewest | DropOldest | Block

  datatype Stats = Stats(accepted: nat, dropped: nat, exported: nat)

  datatype Sink<E> = Sink(capacity: nat, policy: FullPolicy, stopping: bool, active: bool, queue: seq<E>, stats: Stats)

  datatype Emitted = Accepted | Ignored | Dropped | MustWait

  function Push<E>(k: Sink<E>, e: E): Sink<E> {
    k.(queue := k.queue + [e], stats := k.stats.(accepted := k.stats.accepted + 1))
  }

  /** emit up to its wait. */
  function EmitSection<E>(k: Sink<E>, e: E): (Sink<E>, Emitted)
    requires k.capacity >= 1
  {
    if k.stopping then (k, Ignored)
    else if |k.queue| < k.capacity then (Push(k, e), Accepted)
    else
      var counted := k.(stats := k.stats.(dropped := k.stats.dropped + 1));
      match k.policy
      case DropNewest => (counted, Dropped)
      case DropOldest => (Push(counted.(queue := k.queue[1..]), e), Accepted)
      case Block => (k, MustWait)
  }

  datatype Turn<E> = Sleep | Exit | Export(event: E)

  function TakeSection<E>(k: Sink<E>): (Sink<E>, Turn<E>) {
    if k.queue == [] then (k, if k.stopping then Exit else Sleep)
    else (k.(queue := k.queue[1..], active := true), Export(k.queue[0]))
  }

  function DoneSection<E>(k: Sink<E>): Sink<E> {
    k.(active := false, stats := k.stats.(exported := k.stats.exported + 1))
  }

  predicate Drained<E>(k: Sink<E>) {
    k.queue == [] && !k.active
  }

  class AsyncTraceSink<E> {
    const capacity: nat
    const policy: FullPolicy
    var stopping: bool
    var active: bool
    var queue: seq<E>
    var stats: Stats

    ghost function View(): Sink<E>
      reads this
    {
      Sink(capacity, policy, stopping, active, queue, stats)
    }

    constructor (capacity: nat, policy: FullPolicy)
      requires capacity >= 1
      ensures View() == Sink(capacity, policy, false, false, [], Stats(0, 0, 0))
    {
      this.capacity, this.policy := capacity, policy;
      stopping, active, queue := false, false, [];
      stats := Stats(0, 0, 0);
    }

    method Emit(e: E) returns (outcome: Emitted)
      requires capacity >= 1
      modifies this
      ensures (View(), outcome) == EmitSection(old(View()), e)
    {
      if stopping {
        return Ignored;
      }
      if |queue| >= capacity {
        if policy == DropNewest {
          stats := stats.(dropped := stats.dropped + 1);
          return Dropped;
        } else if policy == DropOldest {
          queue := queue[1..];
          stats := stats.(dropped := stats.dropped + 1);
        } else {
          return MustWait;
        }
      }
      queue := queue + [e];
      stats := stats.(accepted := stats.accepted + 1);
      outcome := Accepted;
    }

    method TakeNext() returns (turn: Turn<E>)
      modifies this
      ensures (View(), turn) == TakeSection(old(View()))
    {
      if queue == [] {
        return if stopping then Exit else Sleep;
      }
      turn := Export(queue[0]);
      queue := queue[1..];
      active := true;
    }

    method ExportDone()
      modifies this
      ensures View() == DoneSection(old(View()))
    {
      stats := stats.(exported := stats.exported + 1);
      active := false;
    }
  }

  // ---------------------------------------------------------------- machine

  /** A queued event with its place in the order of acceptance. */
  datatype Item<T> = Item(place: nat, event: T)

  datatype Worker<T> = Awake | Asleep | Exporting(item: Item<T>) | Exited

  /**
   `asleep` and `awake` are emit calls blocked on a full queue; `flushers` sleep in
   flush; `notices` are notify_one calls still to come and `broadcast` the
   notify_all of the destructor. `log` lists the accepted events, `lost` the number
   dropped from the queue, `exported` what reached the downstream sink, in order.
   */
  datatype State<T> = State(
    sink: Sink<Item<T>>, worker: Worker<T>, asleep: map<nat, T>, awake: map<nat, T>, flushers: nat,
    notices: nat, broadcast: bool,
    log: seq<T>, lost: nat, refused: nat, exported: seq<Item<T>>)

  datatype Action<T> =
    | Emit(event: T, ticket: nat)
    | Retry(ticket: nat)
    | Notify
    | TakeTurn
    | ExportEnds
    | FlushSleeps
    | Stop
    | Broadcast
    | SpuriousWorker

  function Initial<T>(capacity: nat, policy: FullPolicy): State<T> {
    State(Sink(capacity, policy, false, false, [], Stats(0, 0, 0)), Awake, map[], map[], 0, 0, false, [], 0, 0, [])
  }

  predicate Enabled<T>(s: State<T>, a: Action<T>) {
    match a
    case Emit(_, k) => k !in s.asleep && k !in s.awake
    case Retry(k) => k in s.awake
    case Notify => s.notices > 0
    case TakeTurn => s.worker.Awake?
    case ExportEnds => s.worker.Exporting?
    case FlushSleeps => !Drained(s.sink)
    case Stop => !s.sink.stopping
    case Broadcast => s.broadcast
    case SpuriousWorker => s.worker.Asleep?
  }

  function Admit<T>(s: State<T>, event: T): State<T>
    requires s.sink.capacity >= 1
  {
    var (sink, outcome) := EmitSection(s.sink, Item(|s.log|, event));
    s.(sink := sink, notices := s.notices + 1, log := s.log + [event],
       lost := s.lost + if |s.sink.queue| >= s.sink.capacity then 1 else 0)
  }

  function EmittedOf<T>(s: State<T>, event: T, k: nat): State<T>
    requires s.sink.capacity >= 1
  {
    var (sink, outcome) := EmitSection(s.sink, Item(|s.log|, event));
    match outcome
    case Accepted => Admit(s, event)
    case Ignored => s
    case Dropped => s.(sink := sink, refused := s.refused + 1)
    case MustWait => s.(asleep := s.asleep[k := event])
  }

  /** A blocked emit that wakes up: give up when stopping, push when there is room, else sleep again. */
  function Retried<T>(s: State<T>, k: nat): State<T>
    requires s.sink.capacity >= 1 && k in s.awake
  {
    var rest := s.(awake := s.awake - {k});
    if s.sink.stopping then rest
    else if |s.sink.queue| < s.sink.capacity then Admit(rest, s.awake[k])
    else rest.(asleep := s.asleep[k := s.awake[k]])
  }

  function Taken<T>(s: State<T>): State<T> {
    var (sink, turn) := TakeSection(s.sink);
    match turn
    case Sleep => s.(worker := Asleep)
    case Exit => s.(worker := Exited)
    case Export(i) => s.(sink := sink, worker := Exporting(i), awake := s.awake + s.asleep, asleep := map[])
  }

  function Apply<T>(s: State<T>, a: Action<T>): State<T>
    requires s.sink.capacity >= 1 && Enabled(s, a)
  {
    match a
    case Emit(event, k) => EmittedOf(s, event, k)
    case Retry(k) => Retried(s, k)
    case Notify => s.(notices := s.notices - 1, worker := if s.worker.Asleep? then Awake else s.worker)
    case TakeTurn => Taken(s)
    case ExportEnds =>
      s.(sink := DoneSection(s.sink), worker := Awake, exported := s.exported + [s.worker.item],
         flushers := if s.sink.queue == [] then 0 else s.flushers)
    case FlushSleeps => s.(flushers := s.flushers + 1)
    case Stop => s.(sink := s.sink.(stopping := true), broadcast := true)
    case Broadcast =>
      s.(broadcast := false, worker := if s.worker.Asleep? then Awake else s.worker,
         awake := s.awake + s.asleep, asleep := map[])
    case SpuriousWorker => s.(worker := Awake)
  }

  predicate IsStep<T(==)>(s: State<T>, a: Action<T>, t: State<T>) {
    s.sink.capacity >= 1 && Enabled(s, a) && t == Apply(s, a)
  }

  ghost predicate IsHistory<T(!new)>(capacity: nat, policy: FullPolicy, states: seq<State<T>>, actions: seq<Action<T>>) {
    && capacity >= 1 && |states| == |actions| + 1
    && states[0] == Initial(capacity, policy)
    && forall i :: 0 <= i < |actions| ==> IsStep(states[i], actions[i], states[i + 1])
  }

  // ---------------------------------------------------------------- invariant

  function InHand<T>(w: Worker<T>): seq<Item<T>> {
    if w.Exporting? then [w.item] else []
  }

  /** Everything accepted and not lost, in order: exported, in the worker's hand, queued. */
  function Stream<T>(s: State<T>): seq<Item<T>> {
    s.exported + InHand(s.worker) + s.sink.queue
  }

  /** Items at rising places of the log, each with the event accepted there. */
  ghost predicate Ordered<T(!new)>(items: seq<Item<T>>, log: seq<T>) {
    && (forall i :: 0 <= i < |items| ==> items[i].place < |log| && items[i].event == log[items[i].place])
    && (forall i, j :: 0 <= i < j < |items| ==> items[i].place < items[j].place)
  }

  ghost predicate Books<T(!new)>(s: State<T>) {
    && |s.sink.queue| <= s.sink.capacity
    && Ordered(Stream(s), s.log)
    && |s.log| == |Stream(s)| + s.lost
    && (s.sink.policy != DropOldest ==> s.lost == 0)
    && (s.sink.policy != DropNewest ==> s.refused == 0)
    && s.sink.stats == Stats(|s.log|, s.lost + s.refused, |s.exported|)
    && (s.sink.active <==> s.worker.Exporting?)
  }

  ghost predicate Kept<T>(s: State<T>) {
    && (s.worker.Asleep? && s.sink.queue != [] ==> s.notices > 0)
    && (s.sink.stopping && !s.broadcast ==> !s.worker.Asleep? && s.asleep == map[])
    && (!s.sink.stopping && s.asleep != map[] ==> |s.sink.queue| == s.sink.capacity)
    && (s.flushers > 0 ==> !Drained(s.sink))
    && (s.worker.Exited? ==> s.sink.stopping && s.sink.queue == [])
    && (s.broadcast ==> s.sink.stopping)
  }

  ghost predicate Inv<T(!new)>(s: State<T>) {
    s.sink.capacity >= 1 && Books(s) && Kept(s)
  }

  /** Dropping one item and appending the next accepted event keeps the stream in order. */
  lemma StreamGrows<T(!new)>(before: seq<Item<T>>, after: seq<Item<T>>, log: seq<T>, event: T)
    requires Ordered(before + after, log)
    ensures Ordered(before + (after + [Item(|log|, event)]), log + [event])
    ensures after != [] ==> Ordered(before + (after[1..] + [Item(|log|, event)]), log + [event])
  {
    var whole := before + after;
    var grown := before + (after + [Item(|log|, event)]);
    assert forall i :: 0 <= i < |whole| ==> grown[i] == whole[i];
    if after != [] {
      var shrunk := before + (after[1..] + [Item(|log|, event)]);
      assert forall i :: 0 <= i < |before| ==> shrunk[i] == whole[i];
      assert forall i :: |before| <= i < |shrunk| - 1 ==> shrunk[i] == whole[i + 1];
    }
  }

  lemma AdmitBooks<T(!new)>(s: State<T>, event: T)
    requires Books(s) && s.sink.capacity >= 1 && EmitSection(s.sink, Item(|s.log|, event)).1 == Accepted
    ensures Books(Admit(s, event))
  {
    StreamGrows(s.exported + InHand(s.worker), s.sink.queue, s.log, event);
  }

  lemma TakeBooks<T(!new)>(s: State<T>)
    requires Books(s) && s.worker.Awake?
    ensures Books(Taken(s))
  {
    if s.sink.queue != [] {
      assert s.sink.queue == [s.sink.queue[0]] + s.sink.queue[1..];
      assert Stream(Taken(s)) == Stream(s);
    }
  }

  lemma BooksStep<T(!new)>(s: State<T>, a: Action<T>)
    requires Inv(s) && Enabled(s, a)
    ensures Books(Apply(s, a))
  {
    match a
    case Emit(event, k) =>
      if EmitSection(s.sink, Item(|s.log|, event)).1 == Accepted { AdmitBooks(s, event); }
    case Retry(k) =>
      if EmitSection(s.sink, Item(|s.log|, s.awake[k])).1 == Accepted && |s.sink.queue| < s.sink.capacity {
        AdmitBooks(s.(awake := s.awake - {k}), s.awake[k]);
      }
    case TakeTurn => TakeBooks(s);
    case ExportEnds => assert Stream(Apply(s, a)) == Stream(s);
    case _ => assert Stream(Apply(s, a)) == Stream(s);
  }

  lemma KeptStep<T(!new)>(s: State<T>, a: Action<T>)
    requires Inv(s) && Enabled(s, a)
    ensures Kept(Apply(s, a)) && Apply(s, a).sink.capacity == s.sink.capacity && Apply(s, a).sink.policy == s.sink.policy
  {
  }

  lemma {:induction false} HistoryInv<T(!new)>(
    capacity: nat, policy: FullPolicy, states: seq<State<T>>, actions: seq<Action<T>>, i: nat)
    requires IsHistory(capacity, policy, states, actions) && i < |states|
    ensures Inv(states[i]) && states[i].sink.capacity == capacity && states[i].sink.policy == policy
  {
    if i > 0 {
      HistoryInv(capacity, policy, states, actions, i - 1);
      assert IsStep(states[i - 1], actions[i - 1], states[i]);
      BooksStep(states[i - 1], actions[i - 1]);
      KeptStep(states[i - 1], actions[i - 1]);
    }
  }

  // ---------------------------------------------------------------- theorems

  /**
   Conservation: accepted events are exported, in the worker's hand, queued, or (with
   DropOldest only) dropped; the statistics say so; the queue is bounded.
   */
  lemma EventsAreConserved<T(!new)>(
    capacity: nat, policy: FullPolicy, states: seq<State<T>>, actions: seq<Action<T>>, i: nat)
    requires IsHistory(capacity, policy, states, actions) && i < |states|
    ensures var s := states[i];
            && |s.sink.queue| <= capacity
            && s.sink.stats.accepted == s.sink.stats.exported + |s.sink.queue| + (if s.sink.active then 1 else 0)
                                        + (if policy == DropOldest then s.sink.stats.dropped else 0)
            && s.sink.stats.accepted == |s.log| && s.sink.stats.exported == |s.exported|
  {
    HistoryInv(capacity, policy, states, actions, i);
  }

  /** Exports are a subsequence of the accepted events in acceptance order; without DropOldest, a prefix. */
  lemma ExportsKeepOrder<T(!new)>(
    capacity: nat, policy: FullPolicy, states: seq<State<T>>, actions: seq<Action<T>>, i: nat)
    requires IsHistory(capacity, policy, states, actions) && i < |states|
    ensures Ordered(states[i].exported, states[i].log)
    ensures policy != DropOldest ==> forall k :: 0 <= k < |states[i].exported| ==> states[i].exported[k].place == k
  {
    HistoryInv(capacity, policy, states, actions, i);
    var s := states[i];
    var stream := Stream(s);
    assert forall k :: 0 <= k < |s.exported| ==> stream[k] == s.exported[k];
    if policy != DropOldest {
      forall k | 0 <= k < |s.exported|
        ensures s.exported[k].place == k
      {
        NoGaps(stream, s.log, k);
      }
    }
  }

  /** Rising places that fill the log are its positions. */
  lemma {:induction false} NoGaps<T(!new)>(items: seq<Item<T>>, log: seq<T>, k: nat)
    requires Ordered(items, log) && |items| == |log| && k < |items|
    ensures items[k].place == k
  {
    AtLeast(items, log, k);
    AtMost(items, log, k);
  }

  lemma {:induction false} AtLeast<T(!new)>(items: seq<Item<T>>, log: seq<T>, k: nat)
    requires Ordered(items, log) && k < |items|
    ensures items[k].place >= k
  {
    if k > 0 { AtLeast(items, log, k - 1); }
  }

  lemma {:induction false} AtMost<T(!new)>(items: seq<Item<T>>, log: seq<T>, k: nat)
    requires Ordered(items, log) && |items| == |log| && k < |items|
    ensures items[k].place <= k
    decreases |items| - k
  {
    if k + 1 < |items| { AtMost(items, log, k + 1); }
  }

  /**
   flush returns only when drained, and then every accepted event has been exported
   or dropped; a sleeping flush, worker or blocked emit always has its wake-up ahead.
   */
  lemma FlushMeansDrained<T(!new)>(
    capacity: nat, policy: FullPolicy, states: seq<State<T>>, actions: seq<Action<T>>, i: nat)
    requires IsHistory(capacity, policy, states, actions) && i < |states|
    ensures var s := states[i];
            && (Drained(s.sink) ==> s.flushers == 0 && s.sink.stats.accepted == |s.exported| + s.lost)
            && (s.worker.Asleep? && s.sink.queue != [] ==> s.notices > 0)
            && (!s.sink.stopping && s.asleep != map[] ==> |s.sink.queue| == capacity)
            && (s.sink.stopping && !s.broadcast ==> !s.worker.Asleep? && s.asleep == map[])
  {
    HistoryInv(capacity, policy, states, actions, i);
  }

  /** Destruction drains: once the worker has exited, nothing accepted is left behind, ever. */
  lemma {:induction false} ExitDrains<T(!new)>(
    capacity: nat, policy: FullPolicy, states: seq<State<T>>, actions: seq<Action<T>>, i: nat, j: nat)
    requires IsHistory(capacity, policy, states, actions) && i <= j < |states| && states[i].worker.Exited?
    ensures states[j].worker.Exited? && states[j].log == states[i].log && states[j].exported == states[i].exported
    ensures states[j].sink.stats.accepted == |states[j].exported| + states[j].lost
    decreases j
  {
    HistoryInv(capacity, policy, states, actions, j);
    if i < j {
      ExitDrains(capacity, policy, states, actions, i, j - 1);
      HistoryInv(capacity, policy, states, actions, j - 1);
      assert IsStep(states[j - 1], actions[j - 1], states[j]);
    }
  }

  // ---------------------------------------------------------------- every emit is answered

  /** What becomes of an emitted event: accepted while there is room, otherwise by policy; nothing after the sink stopped. */
  lemma EmitsAnswered<T(!new)>(s: State<T>, event: T, k: nat)
    requires Inv(s) && Enabled(s, Emit(event, k))
    ensures var u := Apply(s, Emit(event, k));
            var full := |s.sink.queue| >= s.sink.capacity;
            && (s.sink.stopping ==> u == s)
            && (!s.sink.stopping && (!full || s.sink.policy == DropOldest) ==>
                  && u.log == s.log + [event] && u.notices == s.notices + 1
                  && u.sink.queue == (if full then s.sink.queue[1..] else s.sink.queue) + [Item(|s.log|, event)]
                  && u.lost == s.lost + (if full then 1 else 0))
            && (!s.sink.stopping && full && s.sink.policy == DropNewest ==> u.log == s.log && u.refused == s.refused + 1
                                                                            && u.sink.queue == s.sink.queue)
            && (!s.sink.stopping && full && s.sink.policy == Block ==> u == s.(asleep := s.asleep[k := event]))
  {
  }

  /** A sink stops only when it is told to, and stays stopped. */
  lemma {:induction false} StopsOnce<T(!new)>(
    capacity: nat, policy: FullPolicy, states: seq<State<T>>, actions: seq<Action<T>>, i: nat)
    requires IsHistory(capacity, policy, states, actions) && i < |states|
    ensures states[i].sink.stopping <==> exists k :: 0 <= k < i && actions[k].Stop?
  {
    if i > 0 {
      StopsOnce(capacity, policy, states, actions, i - 1);
      assert IsStep(states[i - 1], actions[i - 1], states[i]);
      StoppingStep(states[i - 1], actions[i - 1]);
    }
  }

  lemma StoppingStep<T(!new)>(s: State<T>, a: Action<T>)
    requires s.sink.capacity >= 1 && Enabled(s, a)
    ensures Apply(s, a).sink.stopping <==> s.sink.stopping || a.Stop?
  {
  }

  /** Emits up to `n`, and those of them that found the sink stopped. */
  function Emits<T>(actions: seq<Action<T>>, n: nat): nat
    requires n <= |actions|
  {
    if n == 0 then 0 else Emits(actions, n - 1) + if actions[n - 1].Emit? then 1 else 0
  }

  /** Where the events of a running sink are: accepted, refused, or with an emit that waits. */
  function Places<T>(s: State<T>): nat {
    |s.log| + s.refused + |s.asleep| + |s.awake|
  }

  lemma DropOne<T>(m: map<nat, T>, k: nat)
    requires k in m
    ensures |m - {k}| == |m| - 1
  {
    assert (m - {k}).Keys == m.Keys - {k};
    assert |(m - {k}).Keys| == |m.Keys| - 1;
  }

  lemma AddOne<T>(m: map<nat, T>, k: nat, v: T)
    requires k !in m
    ensures |m[k := v]| == |m| + 1
  {
    assert m[k := v].Keys == m.Keys + {k};
    assert |m[k := v].Keys| == |m.Keys| + 1;
  }

  lemma MergeSize<T>(a: map<nat, T>, b: map<nat, T>)
    requires a.Keys !! b.Keys
    ensures |a + b| == |a| + |b|
  {
    assert (a + b).Keys == a.Keys + b.Keys;
    assert |(a + b).Keys| == |a.Keys| + |b.Keys|;
  }

  ghost predicate Tickets<T>(s: State<T>) {
    s.asleep.Keys !! s.awake.Keys
  }

  lemma TicketsStep<T(!new)>(s: State<T>, a: Action<T>)
    requires s.sink.capacity >= 1 && Enabled(s, a) && Tickets(s)
    ensures Tickets(Apply(s, a))
  {
  }

  lemma PlacesStep<T(!new)>(s: State<T>, a: Action<T>)
    requires Inv(s) && Enabled(s, a) && Tickets(s) && !s.sink.stopping
    ensures Places(Apply(s, a)) == Places(s) + if a.Emit? then 1 else 0
  {
    if a.Emit? {
      EmitPlaces(s, a.event, a.ticket);
    } else if a.Retry? {
      RetryPlaces(s, a.ticket);
    } else {
      MergeSize(s.awake, s.asleep);
    }
  }

  lemma EmitPlaces<T(!new)>(s: State<T>, event: T, k: nat)
    requires Inv(s) && Enabled(s, Emit(event, k)) && !s.sink.stopping
    ensures Places(EmittedOf(s, event, k)) == Places(s) + 1
  {
    AddOne(s.asleep, k, event);
  }

  lemma RetryPlaces<T(!new)>(s: State<T>, k: nat)
    requires Inv(s) && Tickets(s) && k in s.awake && !s.sink.stopping
    ensures Places(Retried(s, k)) == Places(s)
  {
    DropOne(s.awake, k);
    AddOne(s.asleep, k, s.awake[k]);
  }

  /** Until the sink stops, every emitted event is accepted, refused and counted, or waits. */
  lemma {:induction false} EveryEventIsAccounted<T(!new)>(
    capacity: nat, policy: FullPolicy, states: seq<State<T>>, actions: seq<Action<T>>, i: nat)
    requires IsHistory(capacity, policy, states, actions) && i < |states| && forall k :: 0 <= k < i ==> !actions[k].Stop?
    ensures Tickets(states[i]) && Places(states[i]) == Emits(actions, i)
  {
    if i > 0 {
      EveryEventIsAccounted(capacity, policy, states, actions, i - 1);
      HistoryInv(capacity, policy, states, actions, i - 1);
      StopsOnce(capacity, policy, states, actions, i - 1);
      assert IsStep(states[i - 1], actions[i - 1], states[i]);
      PlacesStep(states[i - 1], actions[i - 1]);
      TicketsStep(states[i - 1], actions[i - 1]);
    }
  }

  // ---------------------------------------------------------------- the sink drains

  /** Steps of the sink itself. */
  predicate Working<T>(a: Action<T>) {
    a.Retry? || a.Notify? || a.TakeTurn? || a.ExportEnds? || a.Broadcast?
  }

  /** Events that are still to leave the queue, counting those of waiting emits. */
  function Remaining<T>(s: State<T>): nat {
    |s.sink.queue| + |s.asleep| + |s.awake|
  }

  function Stir<T>(s: State<T>): nat {
    |s.awake| + 2 * s.notices + match s.worker case Awake => 1 case Exporting(_) => 2 case _ => 0
  }

  /** Fewer events remain, or fewer emits wait, or the announcement of the end is over, or less is stirring. */
  ghost predicate Lower<T>(t: State<T>, s: State<T>) {
    var waitingT, waitingS := |t.asleep| + |t.awake|, |s.asleep| + |s.awake|;
    || Remaining(t) < Remaining(s)
    || (Remaining(t) == Remaining(s) && waitingT < waitingS)
    || (Remaining(t) == Remaining(s) && waitingT == waitingS && !t.broadcast && s.broadcast)
    || (Remaining(t) == Remaining(s) && waitingT == waitingS && t.broadcast == s.broadcast && Stir(t) < Stir(s))
  }

  lemma RetryLowers<T(!new)>(s: State<T>, k: nat)
    requires Inv(s) && Tickets(s) && k in s.awake
    ensures Lower(Retried(s, k), s)
  {
    DropOne(s.awake, k);
    AddOne(s.asleep, k, s.awake[k]);
  }

  lemma WorkLowers<T(!new)>(s: State<T>, a: Action<T>)
    requires Inv(s) && Tickets(s) && Enabled(s, a) && Working(a)
    ensures Lower(Apply(s, a), s)
  {
    if a.Retry? {
      RetryLowers(s, a.ticket);
    } else {
      MergeSize(s.awake, s.asleep);
    }
  }

  /** Nothing queued, exported or waiting, and the worker asleep or gone. */
  ghost predicate AtRest<T>(s: State<T>) {
    && Drained(s.sink) && s.notices == 0 && !s.broadcast && s.asleep == map[] && s.awake == map[] && s.flushers == 0
    && (s.worker.Asleep? || s.worker.Exited?) && (s.sink.stopping ==> s.worker.Exited?)
  }

  /** Unless it is at rest, the sink can take a step of its own. */
  lemma NeverStuck<T(!new)>(s: State<T>) returns (a: Action<T>)
    requires Inv(s) && !AtRest(s)
    ensures Working(a) && Enabled(s, a)
  {
    if s.broadcast {
      a := Broadcast;
    } else if s.awake != map[] {
      assert s.awake.Keys != {};
      var k :| k in s.awake.Keys;
      a := Retry(k);
    } else if s.worker.Exporting? {
      a := ExportEnds;
    } else if s.worker.Awake? {
      a := TakeTurn;
    } else {
      a := Notify;
    }
  }

  /** A scheduler: some enabled step of the sink for every state that is not at rest. */
  ghost predicate Schedules<T(!new)>(pick: State<T> -> Action<T>) {
    forall s :: Inv(s) && !AtRest(s) ==> Working(pick(s)) && Enabled(s, pick(s))
  }

  ghost predicate Takes<T(!new)>(path: seq<State<T>>, pick: State<T> -> Action<T>, i: nat)
    requires i + 1 < |path|
  {
    IsStep(path[i], pick(path[i]), path[i + 1])
  }

  lemma {:induction false} RunsToRest<T(!new)>(s: State<T>, pick: State<T> -> Action<T>) returns (path: seq<State<T>>)
    requires Inv(s) && Tickets(s) && Schedules(pick)
    ensures path != [] && path[0] == s && Inv(path[|path| - 1]) && AtRest(path[|path| - 1])
    ensures forall i :: 0 <= i < |path| - 1 ==> Takes(path, pick, i)
    decreases Remaining(s), |s.asleep| + |s.awake|, if s.broadcast then 1 else 0, Stir(s)
  {
    path := [s];
    if !AtRest(s) {
      BooksStep(s, pick(s));
      KeptStep(s, pick(s));
      TicketsStep(s, pick(s));
      WorkLowers(s, pick(s));
      var rest := RunsToRest(Apply(s, pick(s)), pick);
      path := [s] + rest;
      forall i | 0 <= i < |path| - 1
        ensures Takes(path, pick, i)
      {
        if i > 0 {
          assert Takes(rest, pick, i - 1);
        }
      }
    }
  }

  lemma {:induction false} HistoryTickets<T(!new)>(
    capacity: nat, policy: FullPolicy, states: seq<State<T>>, actions: seq<Action<T>>, i: nat)
    requires IsHistory(capacity, policy, states, actions) && i < |states|
    ensures Tickets(states[i])
  {
    if i > 0 {
      HistoryTickets(capacity, policy, states, actions, i - 1);
      assert IsStep(states[i - 1], actions[i - 1], states[i]);
      TicketsStep(states[i - 1], actions[i - 1]);
    }
  }

  /**
   Nothing is left behind: when emits cease, every scheduler brings the sink to rest, and then
   every accepted event was exported or, with DropOldest, dropped, and no emit or flush waits.
   */
  lemma EverySinkDrains<T(!new)>(
    capacity: nat, policy: FullPolicy, states: seq<State<T>>, actions: seq<Action<T>>, pick: State<T> -> Action<T>)
    returns (path: seq<State<T>>)
    requires IsHistory(capacity, policy, states, actions) && Schedules(pick)
    ensures path != [] && path[0] == states[|actions|] && forall i :: 0 <= i < |path| - 1 ==> Takes(path, pick, i)
    ensures var t := path[|path| - 1]; AtRest(t) && |t.log| == |t.exported| + t.lost
  {
    HistoryInv(capacity, policy, states, actions, |actions|);
    HistoryTickets(capacity, policy, states, actions, |actions|);
    path := RunsToRest(states[|actions|], pick);
  }
}
