/**
 The parallel node of src/dage.cpp: branches run as child runs in batches of at
 most max_parallel, children finish in any order, and the last one of a batch
 wakes the parent.

 Branches are their positions in the branches array and `succeeds` fixes the
 outcome of each child. The batch protocol and the wake-up handshake of
 execute_async are one machine; the reference is a sequential batch-by-batch fold.
 */
module ParallelNode {
  datatype Mode = All | AnyOf | MinSuccess(minimum: nat)

  /** Policy of the node; `fast` is fail=="fast". */
  datatype Config = Config(succeeds: seq<bool>, maxParallel: nat, mode: Mode, fast: bool)

  ghost predicate Valid(cfg: Config) {
    cfg.maxParallel >= 1
  }

  function Min(a: nat, b: nat): nat { if a <= b then a else b }

  predicate Enough(cfg: Config, successes: nat) {
    match cfg.mode
    case All => successes == |cfg.succeeds|
    case AnyOf => successes > 0
    case MinSuccess(m) => successes >= m
  }

  // ---------------------------------------------------------------- reference

  /** Branches of [lo, hi) whose outcome is `wanted`. */
  function CountRange(cfg: Config, lo: nat, hi: nat, wanted: bool): nat
    requires lo <= hi <= |cfg.succeeds|
  {
    if lo == hi then 0
    else CountRange(cfg, lo, hi - 1, wanted) + if cfg.succeeds[hi - 1] == wanted then 1 else 0
  }

  datatype Verdict = Verdict(launched: nat, successes: nat, failures: nat, satisfied: bool)

  /** One batch after the other, each awaited before the next decision. */
  function Fold(cfg: Config, lo: nat, successes: nat, failures: nat): Verdict
    requires Valid(cfg) && lo <= |cfg.succeeds|
    decreases |cfg.succeeds| - lo
  {
    if (cfg.mode.AnyOf? && successes > 0) || lo == |cfg.succeeds| then
      Verdict(lo, successes, failures, Enough(cfg, successes))
    else
      var hi := Min(|cfg.succeeds|, lo + cfg.maxParallel);
      var s := successes + CountRange(cfg, lo, hi, true);
      var f := failures + CountRange(cfg, lo, hi, false);
      if cfg.fast && CountRange(cfg, lo, hi, false) > 0 then Verdict(hi, s, f, false)
      else Fold(cfg, hi, s, f)
  }

  // ---------------------------------------------------------------- machine

  /** Where the parent drive stands. */
  datatype Pc = Loop | Launching(end: nat) | Away | Finished(satisfied: bool)

  /**
   Fields of ParallelContinuation, then the parent's drives: `leaving` returned
   from execute_step, `closing` have cleared `driving` but not yet read batch_ready,
   `posted` are submitted, `waiting` have set `driving` and want drive_mutex; `notifying` counts children that made the batch
   ready and have yet to look at `driving`. `counted` is the history of harvests.
   */
  datatype State = State(
    pc: Pc, nextIndex: nat, inFlight: set<nat>, results: seq<nat>,
    launching: bool, batchReady: bool, successes: nat, failures: nat, counted: seq<nat>,
    driving: bool, leaving: nat, closing: nat, posted: nat, waiting: nat, notifying: nat)

  datatype Action =
    | Harvest | Launch | EndLaunch
    | ChildDone(branch: nat) | Notify
    | ClearDriving | ReadReady | BeginDrive | EnterStep

  /** The drive that reaches the node. */
  function Initial(): State {
    State(Loop, 0, {}, [], false, false, 0, 0, [], true, 0, 0, 0, 0, 0)
  }

  predicate Enabled(cfg: Config, s: State, a: Action) {
    match a
    case Harvest => s.pc.Loop?
    case Launch => s.pc.Launching? && s.nextIndex < s.pc.end
    case EndLaunch => s.pc.Launching? && s.nextIndex >= s.pc.end
    case ChildDone(i) => i in s.inFlight
    case Notify => s.notifying > 0
    case ClearDriving => s.leaving > 0
    case ReadReady => s.closing > 0
    case BeginDrive => s.posted > 0
    case EnterStep => s.waiting > 0 && s.pc.Away?
  }

  function CountSeq(cfg: Config, branches: seq<nat>, wanted: bool): nat {
    if branches == [] then 0
    else CountSeq(cfg, branches[..|branches| - 1], wanted)
         + if branches[|branches| - 1] < |cfg.succeeds| && cfg.succeeds[branches[|branches| - 1]] == wanted then 1 else 0
  }

  /** The section at the top of the loop: suspend, or count a finished batch and decide. */
  function Harvested(cfg: Config, s: State): State {
    if s.inFlight != {} && !s.batchReady then
      s.(pc := Away, leaving := s.leaving + 1)
    else
      var batch := if s.batchReady then s.results else [];
      var t := s.(results := if s.batchReady then [] else s.results, batchReady := false,
                  successes := s.successes + CountSeq(cfg, batch, true),
                  failures := s.failures + CountSeq(cfg, batch, false),
                  counted := s.counted + batch);
      if cfg.fast && CountSeq(cfg, batch, false) > 0 then t.(pc := Finished(false))
      else if cfg.mode.AnyOf? && t.successes > 0 then t.(pc := Finished(Enough(cfg, t.successes)))
      else if t.nextIndex >= |cfg.succeeds| then t.(pc := Finished(Enough(cfg, t.successes)))
      else t.(pc := Launching(Min(|cfg.succeeds|, t.nextIndex + cfg.maxParallel)), launching := true)
  }

  function Apply(cfg: Config, s: State, a: Action): State
    requires Enabled(cfg, s, a)
  {
    match a
    case Harvest => Harvested(cfg, s)
    case Launch => s.(inFlight := s.inFlight + {s.nextIndex}, nextIndex := s.nextIndex + 1)
    case EndLaunch => s.(pc := Loop, launching := false, batchReady := if s.inFlight == {} then true else s.batchReady)
    case ChildDone(i) =>
      var last := s.inFlight - {i} == {} && !s.launching;
      s.(inFlight := s.inFlight - {i}, results := s.results + [i],
         batchReady := s.batchReady || last, notifying := s.notifying + if s.batchReady || last then 1 else 0)
    case Notify => s.(notifying := s.notifying - 1, posted := if s.driving then s.posted else s.posted + 1)
    case ClearDriving => s.(driving := false, leaving := s.leaving - 1, closing := s.closing + 1)
    case ReadReady => s.(closing := s.closing - 1, posted := if s.batchReady then s.posted + 1 else s.posted)
    case BeginDrive => s.(posted := s.posted - 1, driving := true, waiting := s.waiting + 1)
    case EnterStep => s.(waiting := s.waiting - 1, pc := Loop)
  }

  ghost predicate IsHistory(cfg: Config, states: seq<State>, actions: seq<Action>) {
    && |states| == |actions| + 1
    && states[0] == Initial()
    && forall i :: 0 <= i < |actions| ==>
                     Enabled(cfg, states[i], actions[i]) && states[i + 1] == Apply(cfg, states[i], actions[i])
  }

  // ---------------------------------------------------------------- counting

  ghost predicate Distinct(s: seq<nat>) {
    forall i, j :: 0 <= i < j < |s| ==> s[i] != s[j]
  }

  ghost function Elements(s: seq<nat>): set<nat> {
    set i | i in s
  }

  predicate Within(i: nat, lo: nat, hi: nat) { lo <= i < hi }

  ghost function Interval(lo: nat, hi: nat): set<nat> {
    set i: nat | i < hi && Within(i, lo, hi)
  }

  lemma {:induction false} IntervalSize(lo: nat, hi: nat)
    requires lo <= hi
    ensures |Interval(lo, hi)| == hi - lo
    decreases hi
  {
    if lo < hi {
      IntervalSize(lo, hi - 1);
      assert Interval(lo, hi) == Interval(lo, hi - 1) + {hi - 1};
    } else {
      assert Interval(lo, hi) == {};
    }
  }

  ghost function Matching(cfg: Config, branches: set<nat>, wanted: bool): set<nat> {
    set i | i in branches && i < |cfg.succeeds| && cfg.succeeds[i] == wanted
  }

  /** Adding one branch to a set of others. */
  lemma MatchingGrows(cfg: Config, branches: set<nat>, b: nat, wanted: bool)
    requires b !in branches
    ensures |Matching(cfg, branches + {b}, wanted)|
         == |Matching(cfg, branches, wanted)| + if b < |cfg.succeeds| && cfg.succeeds[b] == wanted then 1 else 0
  {
    if b < |cfg.succeeds| && cfg.succeeds[b] == wanted {
      assert Matching(cfg, branches + {b}, wanted) == Matching(cfg, branches, wanted) + {b};
    } else {
      assert Matching(cfg, branches + {b}, wanted) == Matching(cfg, branches, wanted);
    }
  }

  lemma {:induction false} CountSeqIsSize(cfg: Config, branches: seq<nat>, wanted: bool)
    requires Distinct(branches)
    ensures CountSeq(cfg, branches, wanted) == |Matching(cfg, Elements(branches), wanted)|
  {
    if branches == [] {
      assert Matching(cfg, Elements(branches), wanted) == {};
    } else {
      var init, last := branches[..|branches| - 1], branches[|branches| - 1];
      CountSeqIsSize(cfg, init, wanted);
      assert Elements(branches) == Elements(init) + {last} && last !in Elements(init);
      MatchingGrows(cfg, Elements(init), last, wanted);
    }
  }

  lemma {:induction false} CountRangeIsSize(cfg: Config, lo: nat, hi: nat, wanted: bool)
    requires lo <= hi <= |cfg.succeeds|
    ensures CountRange(cfg, lo, hi, wanted) == |Matching(cfg, Interval(lo, hi), wanted)|
    decreases hi
  {
    if lo == hi {
      assert Matching(cfg, Interval(lo, hi), wanted) == {};
    } else {
      CountRangeIsSize(cfg, lo, hi - 1, wanted);
      assert Interval(lo, hi) == Interval(lo, hi - 1) + {hi - 1};
      MatchingGrows(cfg, Interval(lo, hi - 1), hi - 1, wanted);
    }
  }

  /** A batch counts the same in whatever order its children finished. */
  lemma OrderDoesNotMatter(cfg: Config, branches: seq<nat>, lo: nat, hi: nat, wanted: bool)
    requires lo <= hi <= |cfg.succeeds| && Distinct(branches) && Elements(branches) == Interval(lo, hi)
    ensures CountSeq(cfg, branches, wanted) == CountRange(cfg, lo, hi, wanted)
  {
    CountSeqIsSize(cfg, branches, wanted);
    CountRangeIsSize(cfg, lo, hi, wanted);
  }

  // ---------------------------------------------------------------- invariant

  /** Start of the batch in progress: everything before it has been harvested. */
  function BatchStart(s: State): nat {
    |s.counted|
  }

  /** Finished and running children of the current batch are its launched branches, once each. */
  ghost predicate BatchBooks(cfg: Config, s: State) {
    && BatchStart(s) <= s.nextIndex <= |cfg.succeeds|
    && Distinct(s.results)
    && Elements(s.results) !! s.inFlight
    && Elements(s.results) + s.inFlight == Interval(BatchStart(s), s.nextIndex)
    && s.nextIndex - BatchStart(s) <= cfg.maxParallel
  }

  /** Flags agree with the drive's position. */
  ghost predicate Flags(cfg: Config, s: State) {
    && (s.launching <==> s.pc.Launching?)
    && (s.pc.Away? ==> s.inFlight != {} || s.batchReady)
    && (s.batchReady ==> s.inFlight == {} && !s.launching && BatchStart(s) < |cfg.succeeds|
                         && s.nextIndex == Min(|cfg.succeeds|, BatchStart(s) + cfg.maxParallel))
    && (s.pc.Launching? ==> s.pc.end == Min(|cfg.succeeds|, BatchStart(s) + cfg.maxParallel) && s.nextIndex <= s.pc.end
                            && BatchStart(s) < |cfg.succeeds|)
    && (!s.pc.Launching? && !s.pc.Finished? && !s.batchReady && s.inFlight == {} ==> s.nextIndex == BatchStart(s) && s.results == [])
    && (!s.pc.Launching? && s.inFlight != {} ==> s.nextIndex == Min(|cfg.succeeds|, BatchStart(s) + cfg.maxParallel))
  }

  /** The fold of the whole node continues from here, or has ended with this verdict. */
  ghost predicate Simulates(cfg: Config, s: State)
    requires Valid(cfg) && BatchStart(s) <= |cfg.succeeds|
  {
    if s.pc.Finished? then
      && s.results == [] && s.inFlight == {} && s.nextIndex == BatchStart(s)
      && Fold(cfg, 0, 0, 0) == Verdict(s.nextIndex, s.successes, s.failures, s.pc.satisfied)
    else
      && Fold(cfg, 0, 0, 0) == Fold(cfg, BatchStart(s), s.successes, s.failures)
      && (s.nextIndex > BatchStart(s) || s.pc.Launching? ==>
            !(cfg.mode.AnyOf? && s.successes > 0) && BatchStart(s) < |cfg.succeeds|)
  }

  ghost predicate Counted(s: State) {
    Distinct(s.counted) && Elements(s.counted) == Interval(0, BatchStart(s))
  }

  /** A ready batch is known to a drive or a messenger; `driving` never lies. */
  ghost predicate WakeupKept(s: State) {
    && (s.driving ==> s.pc.Loop? || s.pc.Launching? || s.pc.Finished? || s.leaving + s.waiting >= 1)
    && (s.batchReady ==> !s.pc.Away? || s.leaving + s.closing + s.posted + s.waiting + s.notifying >= 1)
  }

  ghost predicate Inv(cfg: Config, s: State) {
    Valid(cfg) && BatchBooks(cfg, s) && Flags(cfg, s) && Counted(s) && Simulates(cfg, s) && WakeupKept(s)
  }

  lemma DistinctConcat(a: seq<nat>, b: seq<nat>)
    requires Distinct(a) && Distinct(b) && Elements(a) !! Elements(b)
    ensures Distinct(a + b) && Elements(a + b) == Elements(a) + Elements(b)
  {
    forall i, j | 0 <= i < j < |a + b|
      ensures (a + b)[i] != (a + b)[j]
    {
      if i < |a| <= j {
        assert a[i] in Elements(a) && b[j - |a|] in Elements(b);
      }
    }
    assert forall x :: x in a + b <==> x in a || x in b;
  }

  /** The fold takes the same decision as the harvest of a complete batch. */
  lemma HarvestSimulates(cfg: Config, s: State)
    requires Inv(cfg, s) && s.pc.Loop? && s.batchReady
    ensures var t := Harvested(cfg, s); BatchStart(t) == t.nextIndex && Simulates(cfg, t)
  {
    var lo, hi := BatchStart(s), s.nextIndex;
    var t := Harvested(cfg, s);
    OrderDoesNotMatter(cfg, s.results, lo, hi, true);
    OrderDoesNotMatter(cfg, s.results, lo, hi, false);
    DistinctSize(s.results);
    IntervalSize(lo, hi);
    assert Fold(cfg, lo, s.successes, s.failures)
        == if cfg.fast && CountRange(cfg, lo, hi, false) > 0 then Verdict(hi, t.successes, t.failures, false)
           else Fold(cfg, hi, t.successes, t.failures);
  }

  lemma HarvestReady(cfg: Config, s: State)
    requires Inv(cfg, s) && s.pc.Loop? && s.batchReady
    ensures Inv(cfg, Harvested(cfg, s))
  {
    var t := Harvested(cfg, s);
    HarvestSimulates(cfg, s);
    DistinctConcat(s.counted, s.results);
    assert Elements([]) == {};
    assert Counted(t);
    assert BatchBooks(cfg, t);
  }

  lemma {:induction false} DistinctSize(s: seq<nat>)
    requires Distinct(s)
    ensures |Elements(s)| == |s|
  {
    if s != [] {
      var init, last := s[..|s| - 1], s[|s| - 1];
      DistinctSize(init);
      assert Elements(s) == Elements(init) + {last} && last !in Elements(init);
    }
  }

  lemma HarvestKeepsInv(cfg: Config, s: State)
    requires Inv(cfg, s) && s.pc.Loop?
    ensures Inv(cfg, Harvested(cfg, s))
  {
    if s.batchReady {
      HarvestReady(cfg, s);
    } else if s.inFlight == {} {
      assert s.counted + [] == s.counted;
    }
  }

  lemma LaunchKeepsInv(cfg: Config, s: State, a: Action)
    requires Inv(cfg, s) && Enabled(cfg, s, a) && (a.Launch? || a.EndLaunch?)
    ensures Inv(cfg, Apply(cfg, s, a))
  {
    if a.Launch? {
      assert Interval(BatchStart(s), s.nextIndex + 1) == Interval(BatchStart(s), s.nextIndex) + {s.nextIndex};
    }
  }

  lemma ChildDoneKeepsInv(cfg: Config, s: State, i: nat)
    requires Inv(cfg, s) && i in s.inFlight
    ensures Inv(cfg, Apply(cfg, s, ChildDone(i)))
  {
    assert Elements([i]) == {i};
    DistinctConcat(s.results, [i]);
    assert BatchBooks(cfg, Apply(cfg, s, ChildDone(i)));
  }

  lemma ActionKeepsInv(cfg: Config, s: State, a: Action)
    requires Inv(cfg, s) && Enabled(cfg, s, a)
    ensures Inv(cfg, Apply(cfg, s, a))
  {
    match a
    case Harvest => HarvestKeepsInv(cfg, s);
    case Launch => LaunchKeepsInv(cfg, s, a);
    case EndLaunch => LaunchKeepsInv(cfg, s, a);
    case ChildDone(i) => ChildDoneKeepsInv(cfg, s, i);
    case Notify =>
    case ClearDriving =>
    case ReadReady =>
    case BeginDrive =>
    case EnterStep =>
  }

  lemma {:induction false} HistoryInv(cfg: Config, states: seq<State>, actions: seq<Action>, i: nat)
    requires Valid(cfg) && IsHistory(cfg, states, actions) && i < |states|
    ensures Inv(cfg, states[i])
  {
    if i > 0 {
      HistoryInv(cfg, states, actions, i - 1);
      ActionKeepsInv(cfg, states[i - 1], actions[i - 1]);
    } else {
      assert Elements([]) == {};
    }
  }

  // ---------------------------------------------------------------- theorems

  /**
   Refinement. Whatever order children finish in and however often the parent is
   driven, a finished node has launched exactly the branches, counted exactly the
   successes and failures, and reached exactly the verdict of the sequential fold.
   */
  lemma RefinesFold(cfg: Config, states: seq<State>, actions: seq<Action>, i: nat)
    requires Valid(cfg) && IsHistory(cfg, states, actions) && i < |states| && states[i].pc.Finished?
    ensures var s := states[i];
            Fold(cfg, 0, 0, 0) == Verdict(s.nextIndex, s.successes, s.failures, s.pc.satisfied)
  {
    HistoryInv(cfg, states, actions, i);
  }

  /** Never more than max_parallel children in flight, and none outside the branch list. */
  lemma BoundedInFlight(cfg: Config, states: seq<State>, actions: seq<Action>, i: nat)
    requires Valid(cfg) && IsHistory(cfg, states, actions) && i < |states|
    ensures |states[i].inFlight| <= cfg.maxParallel
    ensures forall b :: b in states[i].inFlight ==> b < |cfg.succeeds|
  {
    HistoryInv(cfg, states, actions, i);
    var s := states[i];
    IntervalSize(BatchStart(s), s.nextIndex);
    SubsetSize(s.inFlight, Interval(BatchStart(s), s.nextIndex));
  }

  lemma SubsetSize(a: set<nat>, b: set<nat>)
    requires a <= b
    ensures |a| <= |b|
  {
    assert b == a + (b - a);
  }

  /** Every launched branch is in exactly one place, and is counted exactly once when the node finishes. */
  lemma EachBranchOnce(cfg: Config, states: seq<State>, actions: seq<Action>, i: nat)
    requires Valid(cfg) && IsHistory(cfg, states, actions) && i < |states|
    ensures var s := states[i];
            && Distinct(s.counted + s.results)
            && Elements(s.counted + s.results) !! s.inFlight
            && Elements(s.counted + s.results) + s.inFlight == Interval(0, s.nextIndex)
            && (s.pc.Finished? ==> s.results == [] && s.inFlight == {} && |s.counted| == s.nextIndex)
  {
    HistoryInv(cfg, states, actions, i);
    var s := states[i];
    DistinctConcat(s.counted, s.results);
    assert s.counted == s.counted + [];
  }

  /** A finished batch is never forgotten: some drive is in the loop, will read it, or has been posted. */
  lemma BatchWakeupKept(cfg: Config, states: seq<State>, actions: seq<Action>, i: nat)
    requires Valid(cfg) && IsHistory(cfg, states, actions) && i < |states|
    requires states[i].pc.Away? && states[i].inFlight == {}
    ensures states[i].batchReady
    ensures states[i].leaving + states[i].closing + states[i].posted + states[i].waiting + states[i].notifying >= 1
  {
    HistoryInv(cfg, states, actions, i);
  }

  // ---------------------------------------------------------------- what the verdict means

  /** The branches below `n` that succeed. */
  ghost function Succeeding(cfg: Config, n: nat): set<nat> {
    set i: nat | i < n && i < |cfg.succeeds| && cfg.succeeds[i]
  }

  ghost predicate AllSucceed(cfg: Config, n: nat) {
    forall i :: 0 <= i < n && i < |cfg.succeeds| ==> cfg.succeeds[i]
  }

  ghost predicate SomeSucceeds(cfg: Config, n: nat) {
    exists i :: 0 <= i < n && i < |cfg.succeeds| && cfg.succeeds[i]
  }

  /**
   When the node succeeds, in terms of its branches alone. With fail=fast the first failure
   fails the node, unless mode any was satisfied by the first batch.
   */
  ghost predicate Succeeds(cfg: Config) {
    var n := |cfg.succeeds|;
    match cfg.mode
    case All => AllSucceed(cfg, n)
    case AnyOf => if cfg.fast then n > 0 && AllSucceed(cfg, Min(n, cfg.maxParallel)) else SomeSucceeds(cfg, n)
    case MinSuccess(m) => if cfg.fast then n >= m && AllSucceed(cfg, n) else |Succeeding(cfg, n)| >= m
  }

  /** A branch that ends the node with its batch: a failure under fast, a success under any. */
  ghost predicate Decides(cfg: Config, i: nat) {
    i < |cfg.succeeds| && ((cfg.fast && !cfg.succeeds[i]) || (cfg.mode.AnyOf? && cfg.succeeds[i]))
  }

  lemma {:induction false} CountAll(cfg: Config, lo: nat, hi: nat)
    requires lo <= hi <= |cfg.succeeds|
    ensures CountRange(cfg, lo, hi, true) + CountRange(cfg, lo, hi, false) == hi - lo
    ensures CountRange(cfg, lo, hi, false) == 0 <==> forall i :: lo <= i < hi ==> cfg.succeeds[i]
    ensures CountRange(cfg, lo, hi, true) == 0 <==> forall i :: lo <= i < hi ==> !cfg.succeeds[i]
    decreases hi
  {
    if lo < hi {
      CountAll(cfg, lo, hi - 1);
      assert (forall i :: lo <= i < hi ==> cfg.succeeds[i]) <==>
             (forall i :: lo <= i < hi - 1 ==> cfg.succeeds[i]) && cfg.succeeds[hi - 1];
    }
  }

  lemma {:induction false} CountJoins(cfg: Config, lo: nat, mid: nat, hi: nat, wanted: bool)
    requires lo <= mid <= hi <= |cfg.succeeds|
    ensures CountRange(cfg, lo, mid, wanted) + CountRange(cfg, mid, hi, wanted) == CountRange(cfg, lo, hi, wanted)
    decreases hi
  {
    if mid < hi {
      CountJoins(cfg, lo, mid, hi - 1, wanted);
    }
  }

  lemma SucceedingSize(cfg: Config, n: nat)
    requires n <= |cfg.succeeds|
    ensures |Succeeding(cfg, n)| == CountRange(cfg, 0, n, true)
  {
    CountRangeIsSize(cfg, 0, n, true);
    assert Matching(cfg, Interval(0, n), true) == Succeeding(cfg, n);
  }

  /** When no branch decided, the count of successes does. */
  lemma DecidedAtEnd(cfg: Config)
    requires Valid(cfg) && forall i :: 0 <= i < |cfg.succeeds| ==> !Decides(cfg, i)
    ensures Enough(cfg, CountRange(cfg, 0, |cfg.succeeds|, true)) <==> Succeeds(cfg)
  {
    var n := |cfg.succeeds|;
    CountAll(cfg, 0, n);
    SucceedingSize(cfg, n);
    assert cfg.fast ==> forall i :: 0 <= i < n ==> !Decides(cfg, i) && cfg.succeeds[i];
    assert cfg.mode.AnyOf? ==> forall i :: 0 <= i < n ==> !Decides(cfg, i) && !cfg.succeeds[i];
  }

  /** A branch of the next batch that failed under fast fails the node. */
  lemma FailedFast(cfg: Config, lo: nat, hi: nat)
    requires Valid(cfg) && cfg.fast && lo < hi == Min(|cfg.succeeds|, lo + cfg.maxParallel)
    requires forall i :: 0 <= i < lo ==> !Decides(cfg, i)
    requires CountRange(cfg, lo, hi, false) > 0
    ensures !Succeeds(cfg) && exists i :: lo <= i < hi && Decides(cfg, i)
  {
    CountAll(cfg, lo, hi);
    var i :| lo <= i < hi && !cfg.succeeds[i];
    assert Decides(cfg, i);
    if cfg.mode.AnyOf? && lo > 0 {
      assert Decides(cfg, 0);
    }
  }

  /** A success of the next batch satisfies mode any. */
  lemma SatisfiedAny(cfg: Config, lo: nat, hi: nat)
    requires Valid(cfg) && cfg.mode.AnyOf? && lo < hi == Min(|cfg.succeeds|, lo + cfg.maxParallel)
    requires forall i :: 0 <= i < lo ==> !Decides(cfg, i)
    requires CountRange(cfg, lo, hi, true) > 0 && (cfg.fast ==> CountRange(cfg, lo, hi, false) == 0)
    ensures Succeeds(cfg) && exists i :: lo <= i < hi && Decides(cfg, i)
  {
    CountAll(cfg, lo, hi);
    var i :| lo <= i < hi && cfg.succeeds[i];
    assert Decides(cfg, i);
    if cfg.fast && lo > 0 {
      assert Decides(cfg, 0);
    }
  }

  /** Where batch `q` starts: after q full ones. */
  ghost function StartOf(cfg: Config, q: nat): nat {
    if q == 0 then 0 else StartOf(cfg, q - 1) + cfg.maxParallel
  }

  /** The last batch is the q-th: no branch before it decides, and one of its own does unless it ends the list. */
  ghost predicate LastBatch(cfg: Config, q: nat, launched: nat) {
    var lo := StartOf(cfg, q);
    && lo < |cfg.succeeds| && launched == Min(|cfg.succeeds|, lo + cfg.maxParallel)
    && (forall i :: 0 <= i < lo ==> !Decides(cfg, i))
    && (launched < |cfg.succeeds| ==> exists i :: lo <= i < launched && Decides(cfg, i))
  }

  /** Which branches are launched: whole batches, up to the first one with a deciding branch. */
  ghost predicate Launches(cfg: Config, launched: nat) {
    if |cfg.succeeds| == 0 then launched == 0 else exists q :: LastBatch(cfg, q, launched)
  }

  /** What a verdict of the fold says. */
  ghost predicate Right(cfg: Config, v: Verdict) {
    && (v.satisfied <==> Succeeds(cfg)) && Launches(cfg, v.launched)
    && v.successes == |Succeeding(cfg, v.launched)| && v.successes + v.failures == v.launched
  }

  /** One round of the fold, with the counts from the start. */
  lemma FoldOnce(cfg: Config, lo: nat, hi: nat)
    requires Valid(cfg) && lo < hi == Min(|cfg.succeeds|, lo + cfg.maxParallel)
    requires forall i :: 0 <= i < lo ==> !Decides(cfg, i)
    ensures var s, f := CountRange(cfg, 0, hi, true), CountRange(cfg, 0, hi, false);
            Fold(cfg, lo, CountRange(cfg, 0, lo, true), CountRange(cfg, 0, lo, false)) ==
            if cfg.fast && CountRange(cfg, lo, hi, false) > 0 then Verdict(hi, s, f, false)
            else if cfg.mode.AnyOf? && CountRange(cfg, lo, hi, true) > 0 then Verdict(hi, s, f, true)
            else Fold(cfg, hi, s, f)
  {
    AnyIsUndecided(cfg, lo);
    CountJoins(cfg, 0, lo, hi, true);
    CountJoins(cfg, 0, lo, hi, false);
  }

  /** The counts of a verdict after whole batches. */
  lemma CountsAreRight(cfg: Config, hi: nat)
    requires hi <= |cfg.succeeds|
    ensures CountRange(cfg, 0, hi, true) == |Succeeding(cfg, hi)|
    ensures CountRange(cfg, 0, hi, true) + CountRange(cfg, 0, hi, false) == hi
  {
    CountAll(cfg, 0, hi);
    SucceedingSize(cfg, hi);
  }

  /** The fold goes on with batch `q`. */
  lemma {:induction false} FoldMeans(cfg: Config, q: nat, lo: nat)
    requires Valid(cfg) && lo == StartOf(cfg, q) < |cfg.succeeds| && forall i :: 0 <= i < lo ==> !Decides(cfg, i)
    ensures Right(cfg, Fold(cfg, lo, CountRange(cfg, 0, lo, true), CountRange(cfg, 0, lo, false)))
    decreases |cfg.succeeds| - lo
  {
    var hi := Min(|cfg.succeeds|, lo + cfg.maxParallel);
    FoldOnce(cfg, lo, hi);
    CountsAreRight(cfg, hi);
    if cfg.fast && CountRange(cfg, lo, hi, false) > 0 {
      FailedFast(cfg, lo, hi);
      assert LastBatch(cfg, q, hi);
    } else if cfg.mode.AnyOf? && CountRange(cfg, lo, hi, true) > 0 {
      SatisfiedAny(cfg, lo, hi);
      assert LastBatch(cfg, q, hi);
    } else {
      BatchUndecided(cfg, lo, hi);
      if hi == |cfg.succeeds| {
        DecidedAtEnd(cfg);
        assert LastBatch(cfg, q, hi);
      } else {
        FoldMeans(cfg, q + 1, hi);
      }
    }
  }

  lemma AnyIsUndecided(cfg: Config, lo: nat)
    requires lo <= |cfg.succeeds| && forall i :: 0 <= i < lo ==> !Decides(cfg, i)
    ensures cfg.mode.AnyOf? ==> CountRange(cfg, 0, lo, true) == 0
  {
    CountAll(cfg, 0, lo);
    if cfg.mode.AnyOf? {
      assert forall i :: 0 <= i < lo ==> !Decides(cfg, i) && !cfg.succeeds[i];
    }
  }

  lemma BatchUndecided(cfg: Config, lo: nat, hi: nat)
    requires lo <= hi <= |cfg.succeeds| && forall i :: 0 <= i < lo ==> !Decides(cfg, i)
    requires !(cfg.fast && CountRange(cfg, lo, hi, false) > 0) && !(cfg.mode.AnyOf? && CountRange(cfg, lo, hi, true) > 0)
    ensures forall i :: 0 <= i < hi ==> !Decides(cfg, i)
  {
    CountAll(cfg, lo, hi);
  }

  /**
   What a finished node says, on its branches alone: it is satisfied exactly if its policy is
   met by the outcomes, it launched the batches up to the first that decides, and it counted
   the successes and failures among them.
   */
  lemma VerdictMeans(cfg: Config, states: seq<State>, actions: seq<Action>, i: nat)
    requires Valid(cfg) && IsHistory(cfg, states, actions) && i < |states| && states[i].pc.Finished?
    ensures states[i].pc.satisfied <==> Succeeds(cfg)
    ensures Launches(cfg, states[i].nextIndex)
    ensures states[i].successes == |Succeeding(cfg, states[i].nextIndex)|
    ensures states[i].successes + states[i].failures == states[i].nextIndex
  {
    RefinesFold(cfg, states, actions, i);
    if |cfg.succeeds| == 0 {
      DecidedAtEnd(cfg);
      CountsAreRight(cfg, 0);
    } else {
      FoldMeans(cfg, 0, 0);
    }
  }

  // ---------------------------------------------------------------- every node finishes

  /** In every unfinished state some step can be taken: a child is running, or a drive or messenger is on its way. */
  lemma NeverStuck(cfg: Config, states: seq<State>, actions: seq<Action>, i: nat) returns (a: Action)
    requires Valid(cfg) && IsHistory(cfg, states, actions) && i < |states| && !states[i].pc.Finished?
    ensures Enabled(cfg, states[i], a)
  {
    HistoryInv(cfg, states, actions, i);
    var s := states[i];
    if s.pc.Loop? {
      a := Harvest;
    } else if s.pc.Launching? {
      a := if s.nextIndex < s.pc.end then Launch else EndLaunch;
    } else if s.inFlight != {} {
      var b :| b in s.inFlight;
      a := ChildDone(b);
    } else if s.notifying > 0 {
      a := Notify;
    } else if s.leaving > 0 {
      a := ClearDriving;
    } else if s.closing > 0 {
      a := ReadReady;
    } else {
      a := if s.posted > 0 then BeginDrive else EnterStep;
    }
  }

  /** Where the node is between two harvests: before, in and after a launch, waiting, with a batch to harvest, done. */
  function PhaseRank(s: State): nat {
    if s.pc.Finished? then 0
    else if s.batchReady then 1
    else if s.pc.Launching? then 3
    else if s.nextIndex == BatchStart(s) then 4
    else 2
  }

  /**
   How far the drives are from their end: with a batch to harvest they end inside the
   node, without one they leave it.
   */
  function DriveRank(s: State): nat {
    var inside := if s.pc.Loop? then 1 else 0;
    if s.batchReady then 6 * s.notifying + 5 * s.leaving + 4 * s.closing + 3 * s.posted + 2 * s.waiting
    else 6 * s.notifying + 5 * s.posted + 4 * s.waiting + 3 * inside + 2 * s.leaving + s.closing
  }

  /** The measure: branches not counted, not launched, running, then the phase, then the drives. */
  ghost predicate Lower(cfg: Config, t: State, s: State) {
    var n := |cfg.succeeds|;
    || |t.counted| > |s.counted|
    || (|t.counted| == |s.counted| && t.nextIndex > s.nextIndex)
    || (|t.counted| == |s.counted| && t.nextIndex == s.nextIndex && |t.inFlight| < |s.inFlight|)
    || (|t.counted| == |s.counted| && t.nextIndex == s.nextIndex && |t.inFlight| == |s.inFlight| &&
        (PhaseRank(t) < PhaseRank(s) || (PhaseRank(t) == PhaseRank(s) && DriveRank(t) < DriveRank(s))))
  }

  lemma ActionLowers(cfg: Config, s: State, a: Action)
    requires Inv(cfg, s) && Enabled(cfg, s, a) && !s.pc.Finished?
    ensures Lower(cfg, Apply(cfg, s, a), s)
  {
    if a.Harvest? {
      HarvestLowers(cfg, s);
    }
  }

  lemma HarvestLowers(cfg: Config, s: State)
    requires Inv(cfg, s) && s.pc.Loop?
    ensures Lower(cfg, Harvested(cfg, s), s)
  {
    if s.batchReady {
      IntervalSize(BatchStart(s), s.nextIndex);
      DistinctSize(s.results);
    }
  }

  function LastOf(states: seq<State>): State
    requires states != []
  {
    states[|states| - 1]
  }

  /** A scheduler: some enabled step for every unfinished state of a node. */
  ghost predicate Schedules(cfg: Config, pick: State -> Action) {
    forall s :: Inv(cfg, s) && !s.pc.Finished? ==> Enabled(cfg, s, pick(s))
  }

  /** The path takes the scheduler's step at `i`. */
  ghost predicate Takes(cfg: Config, path: seq<State>, pick: State -> Action, i: nat)
    requires i + 1 < |path|
  {
    Enabled(cfg, path[i], pick(path[i])) && path[i + 1] == Apply(cfg, path[i], pick(path[i]))
  }

  lemma {:induction false} RunsToTheEnd(cfg: Config, s: State, pick: State -> Action) returns (path: seq<State>)
    requires Inv(cfg, s) && Schedules(cfg, pick)
    ensures path != [] && path[0] == s && LastOf(path).pc.Finished?
    ensures forall i :: 0 <= i < |path| - 1 ==> Takes(cfg, path, pick, i)
    decreases |cfg.succeeds| - |s.counted|, |cfg.succeeds| - s.nextIndex, |s.inFlight|, PhaseRank(s), DriveRank(s)
  {
    if s.pc.Finished? {
      path := [s];
    } else {
      var t := Apply(cfg, s, pick(s));
      ActionKeepsInv(cfg, s, pick(s));
      ActionLowers(cfg, s, pick(s));
      var rest := RunsToTheEnd(cfg, t, pick);
      path := Prepend(cfg, s, rest, pick);
    }
  }

  lemma Prepend(cfg: Config, s: State, rest: seq<State>, pick: State -> Action) returns (path: seq<State>)
    requires Enabled(cfg, s, pick(s)) && rest != [] && rest[0] == Apply(cfg, s, pick(s))
    requires forall i :: 0 <= i < |rest| - 1 ==> Takes(cfg, rest, pick, i)
    ensures path == [s] + rest && forall i :: 0 <= i < |path| - 1 ==> Takes(cfg, path, pick, i)
  {
    path := [s] + rest;
    forall i | 0 <= i < |path| - 1
      ensures Takes(cfg, path, pick, i)
    {
      if i > 0 {
        assert Takes(cfg, rest, pick, i - 1);
      }
    }
  }

  /** Every node finishes: from the end of any history, every scheduler brings it to a verdict. */
  lemma EveryNodeFinishes(cfg: Config, states: seq<State>, actions: seq<Action>, pick: State -> Action)
    returns (path: seq<State>)
    requires Valid(cfg) && IsHistory(cfg, states, actions) && Schedules(cfg, pick)
    ensures path != [] && path[0] == LastOf(states) && LastOf(path).pc.Finished?
    ensures forall i :: 0 <= i < |path| - 1 ==> Takes(cfg, path, pick, i)
  {
    HistoryInv(cfg, states, actions, |actions|);
    path := RunsToTheEnd(cfg, LastOf(states), pick);
  }
}
