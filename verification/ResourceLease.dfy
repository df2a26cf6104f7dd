/**
 The fair multi-resource lease provider of src/resource_lease.cpp.

 The provider is a class over its mutable fields; each locked section is one
 method, specified by a function on the provider's state. The two clocks
 (unix_ms for expiry, steady_clock for aging) are inputs that never run backwards.
 */
module ResourceLease {
  import opened Base

  datatype LeaseError = LeaseTtlInvalid | LeaseCapacity | LeaseExpired

  datatype Request = Request(resources: map<string, nat>, units: nat, priority: int, key: string, ttl: nat)

  /** A queued acquire call; `enqueued` is its steady-clock time in milliseconds. */
  datatype Waiter = Waiter(sequence: nat, priority: int, key: string, enqueued: nat,
                           resources: map<string, nat>, ttl: nat)

  /** LeaseState; `dropped` says the owning FairLease object is gone. */
  datatype Lease = Lease(token: nat, resources: map<string, nat>, expires: nat, released: bool, dropped: bool)

  /** Fields of FairResourceLeaseProvider::Impl, the clocks, and the history of returned leases. */
  datatype State = State(
    capacity: map<string, nat>, available: map<string, nat>,
    waiters: seq<Waiter>, leases: seq<Lease>, active: seq<nat>,
    lastKey: string, nextSequence: nat, nextToken: nat,
    now: nat, steady: nat, returned: seq<nat>)

  // ---------------------------------------------------------------- specification

  function Amount(resources: map<string, nat>, r: string): nat {
    if r in resources then resources[r] else 0
  }

  function Credit(available: map<string, nat>, resources: map<string, nat>): map<string, nat> {
    map r | r in available :: available[r] + Amount(resources, r)
  }

  function Debit(available: map<string, nat>, resources: map<string, nat>): map<string, nat>
    requires Fits(available, resources)
  {
    map r | r in available :: available[r] - Amount(resources, r)
  }

  predicate Fits(available: map<string, nat>, resources: map<string, nat>) {
    && resources != map[]
    && forall r :: r in resources ==> r in available && 0 < resources[r] <= available[r]
  }

  /** FairLease::release on lease i. */
  function Release(s: State, i: nat): State
    requires i < |s.leases|
  {
    if s.leases[i].released then s
    else s.(leases := s.leases[i := s.leases[i].(released := true)],
            available := Credit(s.available, s.leases[i].resources),
            returned := s.returned + [i])
  }

  predicate Expired(s: State, i: nat)
    requires i < |s.leases|
  {
    s.leases[i].expires <= s.now
  }

  /** One more lease of a sweep. */
  function SweptOne(before: State, i: nat): State
    requires i < |before.leases|
  {
    if before.leases[i].dropped then before
    else
      var kept := before.(active := before.active + [i]);
      if !kept.leases[i].released && Expired(kept, i) then Release(kept, i) else kept
  }

  /** The sweep over the first n entries of `active`: keep live ones, return expired ones. */
  function Swept(s: State, active: seq<nat>): State
    requires forall k :: 0 <= k < |active| ==> active[k] < |s.leases|
    ensures |Swept(s, active).leases| == |s.leases|
    decreases |active|
  {
    if active == [] then s.(active := [])
    else
      SweptOne(Swept(s, active[..|active| - 1]), active[|active| - 1])
  }

  function Sweep(s: State): State
    requires forall k :: 0 <= k < |s.active| ==> s.active[k] < |s.leases|
  {
    Swept(s, s.active)
  }

  function Effective(w: Waiter, steady: nat): int {
    w.priority + (steady - w.enqueued) / 100
  }

  /** Nobody is ahead of w on aged priority. */
  predicate Top(s: State, w: Waiter) {
    forall v :: v in s.waiters ==> Effective(v, s.steady) <= Effective(w, s.steady)
  }

  predicate Rival(s: State, w: Waiter, v: Waiter) {
    v in s.waiters && Effective(v, s.steady) == Effective(w, s.steady) && v.key != s.lastKey
  }

  /** Impl::selected. */
  predicate Selected(s: State, w: Waiter) {
    && Top(s, w)
    && (forall v :: v in s.waiters && Rival(s, w, v) ==> w.sequence <= v.sequence)
    && (w.key == s.lastKey ==> forall v :: v in s.waiters ==> !Rival(s, w, v))
  }

  function Normalized(q: Request): map<string, nat> {
    if q.resources == map[] then map["slots" := q.units] else q.resources
  }

  predicate Admissible(s: State, q: Request) {
    forall r :: r in Normalized(q) ==>
                  r != "" && 0 < Normalized(q)[r] && r in s.capacity && Normalized(q)[r] <= s.capacity[r]
  }

  function Enqueue(s: State, q: Request): (State, Result<Waiter, LeaseError>) {
    if q.ttl == 0 then (s, Failure(LeaseTtlInvalid))
    else if !Admissible(s, q) then (s, Failure(LeaseCapacity))
    else
      var w := Waiter(s.nextSequence, q.priority, q.key, s.steady, Normalized(q), q.ttl);
      (s.(waiters := s.waiters + [w], nextSequence := s.nextSequence + 1), Success(w))
  }

  /** now + ttl on 64-bit milliseconds: the sum of two such numbers wraps at most once. */
  function Deadline(now: nat, ttl: nat): nat {
    if now + ttl < U64 then now + ttl else now + ttl - U64
  }

  function Without(waiters: seq<Waiter>, k: nat): seq<Waiter>
    requires k < |waiters|
  {
    waiters[..k] + waiters[k + 1..]
  }

  predicate Grantable(s: State, k: nat)
    requires k < |s.waiters|
  {
    Selected(s, s.waiters[k]) && Fits(s.available, s.waiters[k].resources)
  }

  /** The granting branch of acquire, for the k-th waiter of a swept provider. */
  function Grant(s: State, k: nat): State
    requires k < |s.waiters| && Grantable(s, k)
  {
    var w := s.waiters[k];
    var lease := Lease(s.nextToken, w.resources, Deadline(s.now, w.ttl), false, false);
    s.(available := Debit(s.available, w.resources),
       waiters := Without(s.waiters, k), lastKey := w.key,
       leases := s.leases + [lease], active := s.active + [|s.leases|], nextToken := s.nextToken + 1)
  }

  /** One round of the acquire loop; `quit` says the caller is cancelled or past its deadline. */
  function Poll(s: State, k: nat, quit: bool): State
    requires Indexed(s) && k < |s.waiters|
  {
    var t := Sweep(s);
    SweepFrame(s, s.active);
    if Grantable(t, k) then Grant(t, k)
    else if quit then t.(waiters := Without(t.waiters, k))
    else t
  }

  function Renew(s: State, i: nat, ttl: nat): (State, Result<nat, LeaseError>)
    requires i < |s.leases|
  {
    if ttl == 0 then (s, Failure(LeaseTtlInvalid))
    else if s.leases[i].released || Expired(s, i) then (Release(s, i), Failure(LeaseExpired))
    else
      var expires := Deadline(s.now, ttl);
      (s.(leases := s.leases[i := s.leases[i].(expires := expires)]), Success(expires))
  }

  /** ~FairLease. */
  function Drop(s: State, i: nat): State
    requires i < |s.leases|
  {
    var t := Release(s, i);
    t.(leases := t.leases[i := t.leases[i].(dropped := true)])
  }

  ghost predicate Indexed(s: State) {
    forall k :: 0 <= k < |s.active| ==> s.active[k] < |s.leases|
  }

  /** A sweep touches leases, available capacity and its own list only. */
  lemma {:induction false} SweepFrame(s: State, active: seq<nat>)
    requires forall k :: 0 <= k < |active| ==> active[k] < |s.leases|
    ensures var t := Swept(s, active);
            t == s.(leases := t.leases, available := t.available, active := t.active, returned := t.returned)
            && |t.leases| == |s.leases|
    ensures forall k :: 0 <= k < |Swept(s, active).active| ==> Swept(s, active).active[k] in active
    decreases |active|
  {
    if active != [] {
      SweepFrame(s, active[..|active| - 1]);
    }
  }

  // ---------------------------------------------------------------- accounting

  /** Units of r in leases that have not been returned. */
  function Held(leases: seq<Lease>, r: string): nat {
    if leases == [] then 0
    else Held(leases[..|leases| - 1], r) + HeldBy(leases[|leases| - 1], r)
  }

  function HeldBy(l: Lease, r: string): nat {
    if l.released then 0 else Amount(l.resources, r)
  }

  lemma {:induction false} HeldUpdate(leases: seq<Lease>, i: nat, l: Lease, r: string)
    requires i < |leases|
    ensures Held(leases[i := l], r) == Held(leases, r) - HeldBy(leases[i], r) + HeldBy(l, r)
    decreases |leases|
  {
    var n := |leases| - 1;
    if i < n {
      HeldUpdate(leases[..n], i, l, r);
      assert leases[i := l][..n] == leases[..n][i := l];
    } else {
      assert leases[i := l][..n] == leases[..n];
    }
  }

  /** Leases name known resources only. */
  ghost predicate Covered(s: State) {
    forall i :: 0 <= i < |s.leases| ==> s.leases[i].resources.Keys <= s.available.Keys
  }

  ghost predicate Conserved(s: State) {
    && s.available.Keys == s.capacity.Keys
    && forall r :: r in s.capacity ==> s.available[r] + Held(s.leases, r) == s.capacity[r]
  }

  /** Tokens number the leases; a lease is returned once, exactly when it is released. */
  ghost predicate Booked(s: State) {
    && s.nextToken == |s.leases| + 1
    && (forall i :: 0 <= i < |s.leases| ==> s.leases[i].token == i + 1 && (s.leases[i].dropped ==> s.leases[i].released))
    && (forall i, j :: 0 <= i < j < |s.returned| ==> s.returned[i] != s.returned[j])
    && (forall i :: 0 <= i < |s.leases| ==> (i in s.returned <==> s.leases[i].released))
    && (forall k :: 0 <= k < |s.returned| ==> s.returned[k] < |s.leases|)
  }

  /** The sweep list reaches every lease that still holds something. */
  ghost predicate Tracked(s: State) {
    Indexed(s) && forall i :: 0 <= i < |s.leases| && !s.leases[i].released ==> i in s.active
  }

  ghost predicate Servable(s: State, w: Waiter) {
    && w.sequence < s.nextSequence && w.enqueued <= s.steady
    && Fits(s.capacity, w.resources)
  }

  ghost predicate Queued(s: State) {
    && (forall k :: 0 <= k < |s.waiters| ==> Servable(s, s.waiters[k]))
    && (forall i, j :: 0 <= i < j < |s.waiters| ==> s.waiters[i].sequence < s.waiters[j].sequence)
  }

  ghost predicate Inv(s: State) {
    Conserved(s) && Booked(s) && Tracked(s) && Queued(s) && Covered(s)
  }

  lemma ReleaseConserves(s: State, i: nat)
    requires Conserved(s) && i < |s.leases|
    ensures Conserved(Release(s, i))
  {
    var t := Release(s, i);
    if !s.leases[i].released {
      forall r | r in t.capacity
        ensures t.available[r] + Held(t.leases, r) == t.capacity[r]
      {
        HeldUpdate(s.leases, i, t.leases[i], r);
      }
    }
  }

  lemma ReleaseKeepsBooks(s: State, i: nat)
    requires Booked(s) && i < |s.leases|
    ensures Booked(Release(s, i))
  {
    var t := Release(s, i);
    if !s.leases[i].released {
      assert forall j :: j in t.returned <==> j in s.returned || j == i;
    }
  }

  lemma {:induction false} SweepConserves(s: State, active: seq<nat>)
    requires Conserved(s) && Booked(s) && (forall k :: 0 <= k < |active| ==> active[k] < |s.leases|)
    ensures Conserved(Swept(s, active)) && Booked(Swept(s, active))
    decreases |active|
  {
    if active != [] {
      var init, i := active[..|active| - 1], active[|active| - 1];
      SweepConserves(s, init);
      var before := Swept(s, init);
      var kept := before.(active := before.active + [i]);
      ReleaseConserves(kept, i);
      ReleaseKeepsBooks(kept, i);
    }
  }

  lemma {:induction false} SweepAges(s: State, active: seq<nat>)
    requires Booked(s) && (forall k :: 0 <= k < |active| ==> active[k] < |s.leases|)
    ensures var t := Swept(s, active);
            && t.now == s.now
            && (forall i :: 0 <= i < |s.leases| ==> Ages(s.leases[i], t.leases[i], s.now))
            && (forall i :: i in active && !t.leases[i].released ==> i in t.active && t.leases[i].expires > s.now)
    decreases |active|
  {
    if active != [] {
      var init, i := active[..|active| - 1], active[|active| - 1];
      SweepAges(s, init);
      assert forall j :: j in active <==> j in init || j == i;
    }
  }

  /** What one sweep achieves over the listed leases. */
  lemma SweepEffect(s: State, active: seq<nat>)
    requires Conserved(s) && Booked(s) && (forall k :: 0 <= k < |active| ==> active[k] < |s.leases|)
    ensures var t := Swept(s, active);
            && Conserved(t) && Booked(t)
            && (forall i :: 0 <= i < |s.leases| ==> Ages(s.leases[i], t.leases[i], s.now))
            && (forall i :: i in active && !t.leases[i].released ==> i in t.active && t.leases[i].expires > s.now)
  {
    SweepConserves(s, active);
    SweepAges(s, active);
  }

  /** A sweep changes a lease only by releasing it, and only when it has expired. */
  ghost predicate Ages(before: Lease, after: Lease, now: nat) {
    after == before || (after == before.(released := true) && !before.released && before.expires <= now)
  }

  lemma {:induction false} SweepCovers(s: State, active: seq<nat>)
    requires Covered(s) && (forall k :: 0 <= k < |active| ==> active[k] < |s.leases|)
    ensures Covered(Swept(s, active))
    decreases |active|
  {
    if active != [] { SweepCovers(s, active[..|active| - 1]); }
  }

  lemma SweepKeepsInv(s: State)
    requires Inv(s)
    ensures Inv(Sweep(s))
    ensures forall i :: 0 <= i < |s.leases| && !Sweep(s).leases[i].released ==> s.leases[i].expires > s.now
  {
    SweepEffect(s, s.active);
    SweepCovers(s, s.active);
    SweepFrame(s, s.active);
    var t := Sweep(s);
    forall i | 0 <= i < |t.leases| && !t.leases[i].released
      ensures i in t.active && s.leases[i].expires > s.now
    {
      assert Ages(s.leases[i], t.leases[i], s.now);
      assert i in s.active;
    }
  }

  lemma GrantKeepsInv(s: State, k: nat)
    requires Inv(s) && k < |s.waiters| && Grantable(s, k)
    ensures Inv(Grant(s, k))
  {
    GrantConserves(s, k);
    GrantTracks(s, k);
    LeaveKeepsQueue(s, k);
  }

  lemma GrantConserves(s: State, k: nat)
    requires Conserved(s) && Covered(s) && k < |s.waiters| && Grantable(s, k)
    ensures Conserved(Grant(s, k))
  {
    assert Grant(s, k).leases[..|s.leases|] == s.leases;
  }

  lemma GrantTracks(s: State, k: nat)
    requires Tracked(s) && k < |s.waiters| && Grantable(s, k)
    ensures Tracked(Grant(s, k))
  {
    assert forall i :: i in Grant(s, k).active <==> i in s.active || i == |s.leases|;
  }

  lemma LeaveKeepsQueue(s: State, k: nat)
    requires Queued(s) && k < |s.waiters|
    ensures Queued(s.(waiters := Without(s.waiters, k)))
  {
  }

  lemma ReleaseKeepsInv(s: State, i: nat)
    requires Inv(s) && i < |s.leases|
    ensures Inv(Release(s, i))
  {
    ReleaseConserves(s, i);
    ReleaseKeepsBooks(s, i);
  }

  /** Replacing a lease's expiry or dropped flag moves no units. */
  lemma RelabelKeepsInv(s: State, i: nat, l: Lease)
    requires Inv(s) && i < |s.leases|
    requires l == s.leases[i].(expires := l.expires, dropped := l.dropped) && (l.dropped ==> l.released)
    ensures Inv(s.(leases := s.leases[i := l]))
  {
    forall r | r in s.capacity
      ensures Held(s.leases[i := l], r) == Held(s.leases, r)
    {
      HeldUpdate(s.leases, i, l, r);
    }
  }

  // ---------------------------------------------------------------- histories

  datatype Action =
    | Enter(request: Request)
    | Round(waiter: nat, quit: bool)
    | Extend(lease: nat, ttl: nat)
    | Discard(lease: nat)
    | Inspect
    | Tick(wall: nat, steady: nat)

  function Initial(capacity: map<string, nat>): State {
    State(capacity, capacity, [], [], [], "", 1, 1, 0, 0, [])
  }

  ghost predicate Enabled(s: State, a: Action) {
    match a
    case Enter(_) => true
    case Round(k, _) => k < |s.waiters|
    case Extend(i, _) => i < |s.leases| && !s.leases[i].dropped
    case Discard(i) => i < |s.leases| && !s.leases[i].dropped
    case Inspect => true
    case Tick(wall, steady) => s.now <= wall && s.steady <= steady
  }

  ghost function Apply(s: State, a: Action): State
    requires Indexed(s) && Enabled(s, a)
  {
    match a
    case Enter(q) => Enqueue(s, q).0
    case Round(k, quit) => Poll(s, k, quit)
    case Extend(i, ttl) => Renew(s, i, ttl).0
    case Discard(i) => Drop(s, i)
    case Inspect => Sweep(s)
    case Tick(wall, steady) => s.(now := wall, steady := steady)
  }

  /** What a request is refused for, and how a request without named resources asks for slots. */
  lemma EnqueueAnswers(s: State, q: Request)
    ensures var wanted := if q.resources == map[] then map["slots" := q.units] else q.resources;
            var admissible := forall r :: r in wanted ==> r != "" && r in s.capacity && 0 < wanted[r] <= s.capacity[r];
            && (q.ttl == 0 ==> Enqueue(s, q) == (s, Failure(LeaseTtlInvalid)))
            && (q.ttl > 0 && !admissible ==> Enqueue(s, q) == (s, Failure(LeaseCapacity)))
            && (q.ttl > 0 && admissible ==>
                  var w := Waiter(s.nextSequence, q.priority, q.key, s.steady, wanted, q.ttl);
                  Enqueue(s, q) == (s.(waiters := s.waiters + [w], nextSequence := s.nextSequence + 1), Success(w)))
  {
  }

  /** Indexed holds after every action (ActionKeepsInv), so it excludes no history. */
  ghost predicate IsHistory(capacity: map<string, nat>, states: seq<State>, actions: seq<Action>) {
    && |states| == |actions| + 1
    && states[0] == Initial(capacity)
    && forall i :: 0 <= i < |actions| ==>
                     Indexed(states[i]) && Enabled(states[i], actions[i]) && states[i + 1] == Apply(states[i], actions[i])
  }

  lemma EnterKeepsInv(s: State, q: Request)
    requires Inv(s)
    ensures Inv(Enqueue(s, q).0)
  {
    if q.ttl > 0 && Admissible(s, q) {
      var w := Enqueue(s, q).1.value;
      assert Normalized(q) != map[] by {
        if q.resources == map[] { assert "slots" in Normalized(q); }
      }
    }
  }

  lemma RoundKeepsInv(s: State, k: nat, quit: bool)
    requires Inv(s) && k < |s.waiters|
    ensures Inv(Poll(s, k, quit))
  {
    var t := Sweep(s);
    SweepKeepsInv(s);
    SweepFrame(s, s.active);
    if Grantable(t, k) {
      GrantKeepsInv(t, k);
    } else if quit {
      LeaveKeepsQueue(t, k);
    }
  }

  lemma ExtendKeepsInv(s: State, i: nat, ttl: nat)
    requires Inv(s) && i < |s.leases|
    ensures Inv(Renew(s, i, ttl).0)
  {
    ReleaseKeepsInv(s, i);
    RelabelKeepsInv(s, i, s.leases[i].(expires := Deadline(s.now, ttl)));
  }

  lemma DiscardKeepsInv(s: State, i: nat)
    requires Inv(s) && i < |s.leases|
    ensures Inv(Drop(s, i))
  {
    ReleaseKeepsInv(s, i);
    var t := Release(s, i);
    RelabelKeepsInv(t, i, t.leases[i].(dropped := true));
  }

  lemma TickKeepsInv(s: State, now: nat, steady: nat)
    requires Inv(s) && s.steady <= steady
    ensures Inv(s.(now := now, steady := steady))
  {
  }

  lemma ActionKeepsInv(s: State, a: Action)
    requires Inv(s) && Enabled(s, a)
    ensures Inv(Apply(s, a))
  {
    match a
    case Enter(q) => EnterKeepsInv(s, q);
    case Round(k, quit) => RoundKeepsInv(s, k, quit);
    case Extend(i, ttl) => ExtendKeepsInv(s, i, ttl);
    case Discard(i) => DiscardKeepsInv(s, i);
    case Inspect => SweepKeepsInv(s);
    case Tick(now, steady) => TickKeepsInv(s, now, steady);
  }

  lemma CapacityIsFixed(s: State, a: Action)
    requires Indexed(s) && Enabled(s, a)
    ensures Apply(s, a).capacity == s.capacity
  {
    SweepFrame(s, s.active);
  }

  lemma {:induction false} HistoryInv(capacity: map<string, nat>, states: seq<State>, actions: seq<Action>, i: nat)
    requires IsHistory(capacity, states, actions) && i < |states|
    ensures Inv(states[i]) && states[i].capacity == capacity
  {
    if i > 0 {
      HistoryInv(capacity, states, actions, i - 1);
      ActionKeepsInv(states[i - 1], actions[i - 1]);
      CapacityIsFixed(states[i - 1], actions[i - 1]);
    }
  }

  // ---------------------------------------------------------------- theorems: conservation

  /** Units of r in leases that are neither returned nor past their expiry. */
  function Live(leases: seq<Lease>, now: nat, r: string): nat {
    if leases == [] then 0
    else
      var l := leases[|leases| - 1];
      Live(leases[..|leases| - 1], now, r) + if l.expires > now then HeldBy(l, r) else 0
  }

  lemma {:induction false} LiveIsHeld(leases: seq<Lease>, now: nat, r: string)
    ensures Live(leases, now, r) <= Held(leases, r)
  {
    if leases != [] { LiveIsHeld(leases[..|leases| - 1], now, r); }
  }

  /**
   Conservation: in every history, for each resource, what is available and what
   unreturned leases hold add up to the capacity, so live leases never exceed it;
   nothing is returned twice; and fencing tokens number the grants 1, 2, 3, ...
   */
  lemma CapacityIsConserved(capacity: map<string, nat>, states: seq<State>, actions: seq<Action>, i: nat, r: string)
    requires IsHistory(capacity, states, actions) && i < |states| && r in capacity
    ensures var s := states[i];
            && r in s.available
            && s.available[r] + Held(s.leases, r) == capacity[r]
            && Live(s.leases, s.now, r) <= capacity[r]
            && (forall j, k :: 0 <= j < k < |s.returned| ==> s.returned[j] != s.returned[k])
            && (forall j :: 0 <= j < |s.leases| ==> s.leases[j].token == j + 1 < s.nextToken)
  {
    HistoryInv(capacity, states, actions, i);
    LiveIsHeld(states[i].leases, states[i].now, r);
  }

  /** Lease j was returned, and can never be used again. */
  ghost predicate Gone(s: State, j: nat) {
    j < |s.leases| && s.leases[j].released
  }

  lemma GoneStep(s: State, a: Action, j: nat)
    requires Inv(s) && Enabled(s, a) && Gone(s, j)
    ensures Gone(Apply(s, a), j) && Apply(s, a).leases[j].token == s.leases[j].token
  {
    SweepEffect(s, s.active);
    SweepFrame(s, s.active);
    assert Ages(s.leases[j], Sweep(s).leases[j], s.now);
  }

  /**
   A returned lease stays returned whatever happens later, and a renewal of it is
   refused; a renewal of an expired lease is refused and returns it.
   */
  lemma {:induction false} ExpiredNeverRevives(
    capacity: map<string, nat>, states: seq<State>, actions: seq<Action>, i: nat, k: nat, j: nat, ttl: nat)
    requires IsHistory(capacity, states, actions) && i <= k < |states| && Gone(states[i], j) && ttl > 0
    ensures Gone(states[k], j)
    ensures Renew(states[k], j, ttl) == (states[k], Failure(LeaseExpired))
    decreases k
  {
    if i < k {
      ExpiredNeverRevives(capacity, states, actions, i, k - 1, j, ttl);
      HistoryInv(capacity, states, actions, k - 1);
      GoneStep(states[k - 1], actions[k - 1], j);
    }
  }

  /** After a sweep no expired lease holds anything. */
  lemma SweepReclaimsAll(capacity: map<string, nat>, states: seq<State>, actions: seq<Action>, i: nat, j: nat)
    requires IsHistory(capacity, states, actions) && i < |states| && Indexed(states[i])
    requires j < |states[i].leases| && Expired(states[i], j)
    ensures Gone(Sweep(states[i]), j)
  {
    HistoryInv(capacity, states, actions, i);
    SweepKeepsInv(states[i]);
    SweepFrame(states[i], states[i].active);
  }

  // ---------------------------------------------------------------- theorems: time to live

  /** The handle of lease j neither renews it nor goes away. */
  predicate Leaves(a: Action, j: nat) {
    !(a.Extend? && a.lease == j) && !(a.Discard? && a.lease == j)
  }

  lemma SweepLeaves(s: State, active: seq<nat>, j: nat)
    requires Booked(s) && (forall k :: 0 <= k < |active| ==> active[k] < |s.leases|) && j < |s.leases|
    requires s.leases[j].expires > s.now
    ensures Swept(s, active).leases[j] == s.leases[j]
  {
    SweepAges(s, active);
    assert Ages(s.leases[j], Swept(s, active).leases[j], s.now);
  }

  /** Other leases, waiters and the clock do not touch a lease before its deadline. */
  lemma LeaseStays(s: State, a: Action, j: nat)
    requires Inv(s) && Enabled(s, a) && j < |s.leases| && s.leases[j].expires > s.now && Leaves(a, j)
    ensures j < |Apply(s, a).leases| && Apply(s, a).leases[j] == s.leases[j] && Apply(s, a).now >= s.now
  {
    SweepFrame(s, s.active);
    SweepLeaves(s, s.active, j);
  }

  /** The clock never runs backwards. */
  lemma {:induction false} ClockRises(capacity: map<string, nat>, states: seq<State>, actions: seq<Action>, i: nat, m: nat)
    requires IsHistory(capacity, states, actions) && i <= m < |states|
    ensures states[i].now <= states[m].now
    decreases m
  {
    if i < m {
      ClockRises(capacity, states, actions, i, m - 1);
      ClockStep(states[m - 1], actions[m - 1]);
    }
  }

  lemma ClockStep(s: State, a: Action)
    requires Indexed(s) && Enabled(s, a)
    ensures Apply(s, a).now >= s.now
  {
    SweepFrame(s, s.active);
  }

  /** A lease is untouched until its deadline, as long as its own handle leaves it alone. */
  lemma {:induction false} HeldUntilItsDeadline(
    capacity: map<string, nat>, states: seq<State>, actions: seq<Action>, i: nat, m: nat, j: nat)
    requires IsHistory(capacity, states, actions) && i <= m < |states| && j < |states[i].leases|
    requires states[m].now < states[i].leases[j].expires && forall h :: i <= h < m ==> Leaves(actions[h], j)
    ensures j < |states[m].leases| && states[m].leases[j] == states[i].leases[j]
    decreases m
  {
    if i < m {
      ClockRises(capacity, states, actions, m - 1, m);
      HeldUntilItsDeadline(capacity, states, actions, i, m - 1, j);
      HistoryInv(capacity, states, actions, m - 1);
      LeaseStays(states[m - 1], actions[m - 1], j);
    }
  }

  /**
   A grant, and a renewal of a lease that is live, gives the lease exactly its time to live
   if the deadline fits 64 bits; otherwise the deadline wraps and the lease is born expired.
   */
  lemma LivesForItsTtl(capacity: map<string, nat>, states: seq<State>, actions: seq<Action>, i: nat, j: nat, ttl: nat)
    requires IsHistory(capacity, states, actions) && i < |actions| && 0 < ttl < U64 && states[i].now < U64
    requires || (actions[i].Round? && actions[i].waiter < |states[i].waiters| && ttl == states[i].waiters[actions[i].waiter].ttl
                 && j == |states[i].leases| < |states[i + 1].leases|)
             || (actions[i] == Extend(j, ttl) && j < |states[i].leases| && !states[i].leases[j].released
                 && states[i].now < states[i].leases[j].expires)
    ensures j < |states[i + 1].leases| && !states[i + 1].leases[j].released
    ensures states[i].now + ttl < U64 ==> states[i + 1].leases[j].expires == states[i].now + ttl
    ensures states[i].now < states[i + 1].leases[j].expires <==> states[i].now + ttl < U64
    ensures actions[i].Round? ==> states[i + 1].leases[j].resources == states[i].waiters[actions[i].waiter].resources
  {
    assert Indexed(states[i]) && states[i + 1] == Apply(states[i], actions[i]);
    SweepFrame(states[i], states[i].active);
  }

  // ---------------------------------------------------------------- theorems: selection

  /** A waiter of maximal aged priority, least in sequence among those satisfying `preferred`. */
  lemma {:induction false} TopExists(s: State, waiters: seq<Waiter>) returns (w: Waiter)
    requires waiters != []
    ensures w in waiters && forall v :: v in waiters ==> Effective(v, s.steady) <= Effective(w, s.steady)
    decreases |waiters|
  {
    var n := |waiters| - 1;
    w := waiters[n];
    if n > 0 {
      var u := TopExists(s, waiters[..n]);
      if Effective(u, s.steady) >= Effective(w, s.steady) { w := u; }
      assert forall v :: v in waiters <==> v in waiters[..n] || v == waiters[n];
    }
  }

  lemma {:induction false} OldestRival(s: State, w: Waiter, waiters: seq<Waiter>) returns (o: Waiter)
    requires exists v :: v in waiters && Rival(s, w, v)
    ensures o in waiters && Rival(s, w, o)
    ensures forall v :: v in waiters && Rival(s, w, v) ==> o.sequence <= v.sequence
    decreases |waiters|
  {
    var n := |waiters| - 1;
    assert forall v :: v in waiters <==> v in waiters[..n] || v == waiters[n];
    o := waiters[n];
    if exists v :: v in waiters[..n] && Rival(s, w, v) {
      var u := OldestRival(s, w, waiters[..n]);
      if !Rival(s, w, o) || u.sequence <= o.sequence { o := u; }
    }
  }

  /** Somebody is always selected; when no top waiter has a fresh key, every top waiter is. */
  lemma SomeoneIsSelected(s: State) returns (w: Waiter)
    requires s.waiters != []
    ensures w in s.waiters && Selected(s, w)
    ensures (forall v :: v in s.waiters && Top(s, v) ==> v.key == s.lastKey) ==>
              forall v :: v in s.waiters && Top(s, v) ==> Selected(s, v)
  {
    w := TopExists(s, s.waiters);
    if exists v :: v in s.waiters && Rival(s, w, v) {
      w := OldestRival(s, w, s.waiters);
    }
    forall v, u | v in s.waiters && Top(s, v) && u in s.waiters && Rival(s, v, u)
      ensures Top(s, u) && u.key != s.lastKey
    {
    }
  }

  /** If the top class has a key other than the last served, exactly its oldest such waiter is selected. */
  lemma SelectionIsUnique(s: State, w: Waiter, v: Waiter)
    requires Queued(s) && w in s.waiters && v in s.waiters
    requires Selected(s, w) && Selected(s, v)
    requires exists u :: u in s.waiters && Top(s, u) && u.key != s.lastKey
    ensures w == v && w.key != s.lastKey
    ensures forall u :: u in s.waiters && Top(s, u) && u.key != s.lastKey ==> w.sequence <= u.sequence
  {
    var u :| u in s.waiters && Top(s, u) && u.key != s.lastKey;
    assert Rival(s, w, u) && Rival(s, v, u);
    assert Rival(s, w, v) && Rival(s, v, w);
    forall x | x in s.waiters && Top(s, x) && x.key != s.lastKey
      ensures w.sequence <= x.sequence
    {
      assert Rival(s, w, x);
    }
  }

  /**
   Progress: in any reachable state with waiters and with every lease returned or
   expired, the next round of some waiter grants it a lease.
   */
  lemma IdleCapacityIsGranted(capacity: map<string, nat>, states: seq<State>, actions: seq<Action>, i: nat) returns (k: nat)
    requires IsHistory(capacity, states, actions) && i < |states| && Indexed(states[i])
    requires states[i].waiters != []
    requires forall j :: 0 <= j < |states[i].leases| ==> states[i].leases[j].released || Expired(states[i], j)
    ensures k < |states[i].waiters|
    ensures |Poll(states[i], k, false).leases| == |states[i].leases| + 1
  {
    var s := states[i];
    HistoryInv(capacity, states, actions, i);
    SweepKeepsInv(s);
    SweepFrame(s, s.active);
    var t := Sweep(s);
    forall j | 0 <= j < |t.leases|
      ensures t.leases[j].released
    {
      SweepEffect(s, s.active);
      assert Ages(s.leases[j], t.leases[j], s.now);
    }
    forall r | r in t.capacity
      ensures t.available[r] == t.capacity[r]
    {
      NothingHeld(t.leases, r);
    }
    var w := SomeoneIsSelected(t);
    k :| 0 <= k < |t.waiters| && t.waiters[k] == w;
    assert Servable(t, t.waiters[k]);
    assert Grantable(t, k);
  }

  lemma {:induction false} NothingHeld(leases: seq<Lease>, r: string)
    requires forall j :: 0 <= j < |leases| ==> leases[j].released
    ensures Held(leases, r) == 0
  {
    if leases != [] { NothingHeld(leases[..|leases| - 1], r); }
  }

  /**
   No overtaking: a waiter that arrived at least 100 * (p2 - p1 + 1) ms after
   another is never granted while the other still waits, whatever the time.
   */
  lemma NoOvertaking(
    capacity: map<string, nat>, states: seq<State>, actions: seq<Action>, i: nat, k: nat, quit: bool, first: Waiter)
    requires IsHistory(capacity, states, actions) && i < |actions| && actions[i] == Round(k, quit)
    requires k < |states[i].waiters| && first in states[i].waiters
    requires var second := states[i].waiters[k];
             second.enqueued - first.enqueued >= 100 * (second.priority - first.priority + 1)
    ensures |states[i + 1].leases| == |states[i].leases|
  {
    var s := states[i];
    HistoryInv(capacity, states, actions, i);
    SweepFrame(s, s.active);
    var second := s.waiters[k];
    var j :| 0 <= j < |s.waiters| && s.waiters[j] == first;
    assert Servable(s, s.waiters[j]) && Servable(s, s.waiters[k]);
    assert (s.steady - second.enqueued) / 100 <= (s.steady - first.enqueued) / 100 - (second.priority - first.priority + 1);
    assert Effective(second, s.steady) < Effective(first, s.steady);
    assert !Top(Sweep(s), second);
  }

  // ---------------------------------------------------------------- the provider

  class FairLeaseProvider {
    const capacity: map<string, nat>
    var available: map<string, nat>
    var waiters: seq<Waiter>
    var leases: seq<Lease>
    var active: seq<nat>
    var lastKey: string
    var nextSequence: nat
    var nextToken: nat
    var now: nat
    var steady: nat
    ghost var returned: seq<nat>

    ghost function View(): State
      reads this
    {
      State(capacity, available, waiters, leases, active, lastKey, nextSequence, nextToken, now, steady, returned)
    }

    constructor (capacity: map<string, nat>)
      ensures View() == Initial(capacity)
    {
      this.capacity := capacity;
      available := capacity;
      waiters, leases, active, returned := [], [], [], [];
      lastKey := "";
      nextSequence, nextToken := 1, 1;
      now, steady := 0, 0;
    }

    /** available[name] += amount for every named resource. */
    method GiveBack(resources: map<string, nat>)
      requires resources.Keys <= available.Keys
      modifies this`available
      ensures available == Credit(old(available), resources)
    {
      var rest := resources.Keys;
      while rest != {}
        invariant rest <= resources.Keys && available.Keys == old(available).Keys
        invariant forall r :: r in available ==>
                                available[r] == old(available)[r] + if r in rest then 0 else Amount(resources, r)
        decreases |rest|
      {
        var r :| r in rest;
        available := available[r := available[r] + resources[r]];
        rest := rest - {r};
      }
    }

    /** available[name] -= amount for every named resource. */
    method Take(resources: map<string, nat>)
      requires Fits(available, resources)
      modifies this`available
      ensures available == Debit(old(available), resources)
    {
      var rest := resources.Keys;
      while rest != {}
        invariant rest <= resources.Keys && available.Keys == old(available).Keys
        invariant forall r :: r in available ==>
                                available[r] == old(available)[r] - if r in rest then 0 else Amount(resources, r)
        decreases |rest|
      {
        var r :| r in rest;
        available := available[r := available[r] - resources[r]];
        rest := rest - {r};
      }
    }

    /** Lease indices stand for the weak and shared pointers of the original. */
    method ReleaseLease(i: nat)
      requires i < |leases| && leases[i].resources.Keys <= available.Keys
      modifies this
      ensures View() == Release(old(View()), i)
    {
      if leases[i].released {
        return;
      }
      leases := leases[i := leases[i].(released := true)];
      returned := returned + [i];
      GiveBack(leases[i].resources);
    }

    method SweepExpired()
      requires Indexed(View()) && Covered(View())
      modifies this
      ensures View() == Sweep(old(View())) && Covered(View())
    {
      var list := active;
      active := [];
      ghost var start := old(View());
      for k := 0 to |list|
        invariant list == start.active && View() == Swept(start, list[..k])
        invariant |leases| == |start.leases| && Covered(View())
      {
        assert list[..k + 1][..k] == list[..k];
        var i := list[k];
        if !leases[i].dropped {
          active := active + [i];
          if !leases[i].released && leases[i].expires <= now {
            ReleaseLease(i);
          }
        }
      }
      assert list[..|list|] == list;
    }

    method ResourcesFit(resources: map<string, nat>) returns (fits: bool)
      ensures fits == Fits(available, resources)
    {
      var rest := resources.Keys;
      while rest != {}
        invariant rest <= resources.Keys
        invariant forall r :: r in resources && r !in rest ==> r in available && 0 < resources[r] <= available[r]
        decreases |rest|
      {
        var r :| r in rest;
        if r !in available || resources[r] == 0 || available[r] < resources[r] {
          return false;
        }
        rest := rest - {r};
      }
      fits := resources != map[];
    }

    method IsSelected(w: Waiter) returns (selected: bool)
      requires w in waiters
      ensures selected == Selected(View(), w)
    {
      var best := Effective(w, steady);
      for k := 0 to |waiters|
        invariant forall j :: 0 <= j < k ==> Effective(waiters[j], steady) <= best
        invariant Effective(w, steady) <= best
        invariant best == Effective(w, steady) || exists j :: 0 <= j < k && Effective(waiters[j], steady) == best
      {
        if best < Effective(waiters[k], steady) {
          best := Effective(waiters[k], steady);
        }
      }
      if Effective(w, steady) != best {
        return false;
      }
      for k := 0 to |waiters|
        invariant forall j :: 0 <= j < k && Rival(View(), w, waiters[j]) ==> w.sequence <= waiters[j].sequence
      {
        var v := waiters[k];
        if Effective(v, steady) == best && v.key != lastKey && v.sequence < w.sequence {
          assert Rival(View(), w, v);
          return false;
        }
      }
      if w.key == lastKey {
        for k := 0 to |waiters|
          invariant forall j :: 0 <= j < k ==> !Rival(View(), w, waiters[j])
        {
          var v := waiters[k];
          if Effective(v, steady) == best && v.key != lastKey {
            assert Rival(View(), w, v);
            return false;
          }
        }
      }
      return true;
    }

    /** Entry of acquire up to the wait loop. */
    method Enter(q: Request) returns (answer: Result<Waiter, LeaseError>)
      modifies this
      ensures (View(), answer) == Enqueue(old(View()), q)
    {
      var resources := Normalized(q);
      if q.ttl == 0 {
        return Failure(LeaseTtlInvalid);
      }
      var rest := resources.Keys;
      while rest != {}
        invariant rest <= resources.Keys
        invariant forall r :: r in resources && r !in rest ==>
                                r != "" && 0 < resources[r] && r in capacity && resources[r] <= capacity[r]
        decreases |rest|
      {
        var r :| r in rest;
        if r == "" || resources[r] == 0 || r !in capacity || resources[r] > capacity[r] {
          return Failure(LeaseCapacity);
        }
        rest := rest - {r};
      }
      var w := Waiter(nextSequence, q.priority, q.key, steady, resources, q.ttl);
      nextSequence := nextSequence + 1;
      waiters := waiters + [w];
      answer := Success(w);
    }

    /** The granting branch of acquire. */
    method GrantTo(k: nat) returns (token: nat)
      requires k < |waiters| && Grantable(View(), k)
      modifies this
      ensures View() == Grant(old(View()), k) && token == old(nextToken)
    {
      var w := waiters[k];
      Take(w.resources);
      waiters := waiters[..k] + waiters[k + 1..];
      lastKey := w.key;
      token := nextToken;
      active := active + [|leases|];
      leases := leases + [Lease(nextToken, w.resources, Deadline(now, w.ttl), false, false)];
      nextToken := nextToken + 1;
    }

    /** One round of the wait loop. */
    method Round(k: nat, quit: bool) returns (token: Option<nat>)
      requires Indexed(View()) && Covered(View()) && k < |waiters|
      modifies this
      ensures View() == Poll(old(View()), k, quit)
      ensures token.Some? <==> |leases| == |old(leases)| + 1
    {
      SweepFrame(View(), active);
      SweepExpired();
      var selected := IsSelected(waiters[k]);
      var fits := ResourcesFit(waiters[k].resources);
      if selected && fits {
        var granted := GrantTo(k);
        return Some(granted);
      }
      token := None;
      if quit {
        waiters := waiters[..k] + waiters[k + 1..];
      }
    }

    method RenewLease(i: nat, ttl: nat) returns (answer: Result<nat, LeaseError>)
      requires i < |leases| && Covered(View())
      modifies this
      ensures (View(), answer) == Renew(old(View()), i, ttl)
    {
      if ttl == 0 {
        return Failure(LeaseTtlInvalid);
      }
      if leases[i].released || leases[i].expires <= now {
        ReleaseLease(i);
        return Failure(LeaseExpired);
      }
      leases := leases[i := leases[i].(expires := Deadline(now, ttl))];
      answer := Success(leases[i].expires);
    }

    /** Destroying the lease handle gives the capacity back. */
    method DropLease(i: nat)
      requires i < |leases| && Covered(View())
      modifies this
      ensures View() == Drop(old(View()), i)
    {
      ReleaseLease(i);
      leases := leases[i := leases[i].(dropped := true)];
    }
  }
}
