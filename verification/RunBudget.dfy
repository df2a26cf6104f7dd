/**
 Resource bounds of one created run (src/dage.cpp): how many fresh node activations
 and executor starts any sequence of execute, resume, re-drive and selective_rerun
 can cause, and why every drive ends.

 The machine keeps the step counter, the retry budget, the pending asynchronous
 attempt and the place in the drive loop. Which node is current, how executors answer
 and where a drive returns early are choices of the environment.
 */
module RunBudget {

  /** Limits of the run, and each node's max_attempts. */
  datatype Config = Config(maxSteps: nat, retryBudget: nat, maxAttempts: string -> nat)

  /** The pending asynchronous attempt; InHand while the drive handles its result. */
  datatype Pending =
    | Free
    | Waiting(node: string, attempt: nat)
    | Done(node: string, attempt: nat)
    | InHand(node: string, attempt: nat)
    | Delay(node: string, attempt: nat)
    | DelayOver(node: string, attempt: nat)

  /** Where the drive is. */
  datatype Place =
    | Outside
    | Head
    | Fresh(node: string)
    | Again(node: string, attempt: nat)
    | Tried(node: string, attempt: nat)
    | Back

  /** `activations` and `starts` count what the run did so far. */
  datatype State = State(step: nat, retry: nat, pending: Pending, place: Place, activations: nat, starts: nat)

  datatype Action =
    | Drive
    | Return
    | TakeFresh(node: string)
    | TakeResult
    | TakeRetry
    | StartSync
    | RetrySync(started: bool)
    | StartAsync
    | ExecutorCompletes
    | TimerFires
    | RetryLater(scheduled: bool)
    | FinishNode

  function Initial(c: Config): State {
    State(0, c.retryBudget, Free, Outside, 0, 0)
  }

  /** The pending attempt belongs to this node, so it is not activated afresh. */
  predicate Holds(p: Pending, node: string) {
    !p.Free? && p.node == node
  }

  predicate Enabled(c: Config, s: State, a: Action) {
    match a
    case Drive => s.place.Outside?
    case Return => !s.place.Outside?
    case TakeFresh(node) => s.place.Head? && !Holds(s.pending, node)
    case TakeResult => s.place.Head? && s.pending.Done?
    case TakeRetry => s.place.Head? && s.pending.DelayOver?
    case StartSync => s.place.Fresh?
    case RetrySync(_) => s.place.Tried? && s.place.attempt < c.maxAttempts(s.place.node) && s.retry > 0
    case StartAsync => s.place.Fresh? || s.place.Again?
    case ExecutorCompletes => s.pending.Waiting?
    case TimerFires => s.pending.Delay?
    case RetryLater(_) =>
      s.place.Back? && s.pending.InHand? && s.pending.attempt < c.maxAttempts(s.pending.node) && s.retry > 0
    case FinishNode => !s.place.Outside? && !s.place.Head?
  }

  /** A result in hand that is not finished stays ready. */
  function PutBack(p: Pending): Pending {
    if p.InHand? then Done(p.node, p.attempt) else p
  }

  function Apply(c: Config, s: State, a: Action): State
    requires Enabled(c, s, a)
  {
    match a
    case Drive => s.(place := Head)
    case Return => s.(place := Outside, pending := PutBack(s.pending))
    case TakeFresh(node) =>
      if s.step + 1 > c.maxSteps then s.(step := s.step + 1, place := Outside)
      else s.(step := s.step + 1, place := Fresh(node), activations := s.activations + 1)
    case TakeResult => s.(place := Back, pending := InHand(s.pending.node, s.pending.attempt))
    case TakeRetry => s.(place := Again(s.pending.node, s.pending.attempt + 1), pending := Free)
    case StartSync => s.(place := Tried(s.place.node, 1), starts := s.starts + 1)
    case RetrySync(started) =>
      s.(retry := s.retry - 1, place := Tried(s.place.node, s.place.attempt + 1),
         starts := s.starts + if started then 1 else 0)
    case StartAsync =>
      s.(pending := Waiting(s.place.node, if s.place.Again? then s.place.attempt else 1), place := Outside,
         starts := s.starts + 1)
    case ExecutorCompletes => s.(pending := Done(s.pending.node, s.pending.attempt))
    case TimerFires => s.(pending := DelayOver(s.pending.node, s.pending.attempt))
    case RetryLater(scheduled) =>
      if scheduled then s.(retry := s.retry - 1, pending := Delay(s.pending.node, s.pending.attempt), place := Outside)
      else s.(retry := s.retry - 1, pending := Free, place := Head)
    case FinishNode => s.(place := Head, pending := if s.pending.InHand? then Free else s.pending)
  }

  ghost predicate IsStep(c: Config, s: State, a: Action, t: State) {
    Enabled(c, s, a) && t == Apply(c, s, a)
  }

  ghost predicate IsHistory(c: Config, states: seq<State>, actions: seq<Action>) {
    && |states| == |actions| + 1 && states[0] == Initial(c)
    && forall i :: 0 <= i < |actions| ==> IsStep(c, states[i], actions[i], states[i + 1])
  }

  // ---------------------------------------------------------------- bounds

  /** Starts the run is still owed: an activation that has not started, a retry that was paid for. */
  function Owed(s: State): nat {
    (if s.place.Fresh? || s.place.Again? then 1 else 0) + (if s.pending.Delay? || s.pending.DelayOver? then 1 else 0)
  }

  /** Each start was paid for by an activation or by a unit of the retry budget. */
  ghost predicate Inv(c: Config, s: State) {
    && s.retry <= c.retryBudget
    && s.activations <= s.step && s.activations <= c.maxSteps
    && (s.pending.InHand? <==> s.place.Back?)
    && s.starts + Owed(s) <= s.activations + (c.retryBudget - s.retry)
  }

  lemma StepKeepsInv(c: Config, s: State, a: Action)
    requires Inv(c, s) && Enabled(c, s, a)
    ensures Inv(c, Apply(c, s, a))
  {
  }

  lemma {:induction false} HistoryInv(c: Config, states: seq<State>, actions: seq<Action>, i: nat)
    requires IsHistory(c, states, actions) && i < |states|
    ensures Inv(c, states[i])
  {
    if i > 0 {
      HistoryInv(c, states, actions, i - 1);
      assert IsStep(c, states[i - 1], actions[i - 1], states[i]);
      StepKeepsInv(c, states[i - 1], actions[i - 1]);
    }
  }

  /**
   Over the whole life of a run, whatever is called on it: at most max_steps fresh
   activations, and at most max_steps plus the retry budget executor starts.
   */
  lemma WorkIsBounded(c: Config, states: seq<State>, actions: seq<Action>, i: nat)
    requires IsHistory(c, states, actions) && i < |states|
    ensures states[i].activations <= c.maxSteps
    ensures states[i].starts <= c.maxSteps + c.retryBudget
  {
    HistoryInv(c, states, actions, i);
  }

  /** How often one activation of a node may be tried; the first attempt is never refused. */
  function Attempts(c: Config, node: string): nat {
    if c.maxAttempts(node) == 0 then 1 else c.maxAttempts(node)
  }

  /** Attempts stay within the node's limit, and a pending attempt keeps its node from being activated afresh. */
  ghost predicate WithinLimits(c: Config, s: State) {
    && (s.place.Tried? || s.place.Again? ==> 1 <= s.place.attempt <= Attempts(c, s.place.node))
    && (!s.pending.Free? ==> 1 <= s.pending.attempt <= Attempts(c, s.pending.node))
    && (s.pending.Delay? || s.pending.DelayOver? ==> s.pending.attempt < Attempts(c, s.pending.node))
    && (s.place.Fresh? ==> !(!s.pending.Free? && s.pending.node == s.place.node))
    && (s.pending.InHand? ==> s.place.Back?)
  }

  lemma StepKeepsLimits(c: Config, s: State, a: Action)
    requires WithinLimits(c, s) && Enabled(c, s, a)
    ensures WithinLimits(c, Apply(c, s, a))
  {
  }

  lemma {:induction false} HistoryLimits(c: Config, states: seq<State>, actions: seq<Action>, i: nat)
    requires IsHistory(c, states, actions) && i < |states|
    ensures WithinLimits(c, states[i])
  {
    if i > 0 {
      HistoryLimits(c, states, actions, i - 1);
      assert IsStep(c, states[i - 1], actions[i - 1], states[i]);
      StepKeepsLimits(c, states[i - 1], actions[i - 1]);
    }
  }

  /** The number an attempt gets: attempts of one activation count up from 1 without a gap. */
  function AttemptOf(s: State): nat {
    match s.place
    case Tried(_, n) => n
    case Again(_, n) => n - (if n > 0 then 1 else 0)
    case Fresh(_) => 0
    case _ => if s.pending.Free? then 0 else s.pending.attempt
  }

  /**
   An executor is started as attempt 1 of a fresh activation or as the next attempt of the
   same node, never beyond max_attempts; a node with a pending attempt is not activated afresh.
   */
  lemma StartsAreNumbered(c: Config, states: seq<State>, actions: seq<Action>, i: nat)
    requires IsHistory(c, states, actions) && i < |actions| && states[i + 1].starts == states[i].starts + 1
    ensures var s, t := states[i], states[i + 1];
            && !s.place.Outside? && !s.place.Head? && !s.place.Back?
            && AttemptOf(t) == AttemptOf(s) + 1 <= Attempts(c, s.place.node)
            && (t.place == Tried(s.place.node, AttemptOf(t)) || t.pending == Waiting(s.place.node, AttemptOf(t)))
            && (s.place.Fresh? ==> AttemptOf(t) == 1 && (s.pending.Free? || s.pending.node != s.place.node))
  {
    HistoryLimits(c, states, actions, i);
    HistoryLimits(c, states, actions, i + 1);
    assert IsStep(c, states[i], actions[i], states[i + 1]);
  }

  // ---------------------------------------------------------------- termination

  function PlaceRank(p: Place): nat {
    match p
    case Outside => 0
    case Head => 4
    case Fresh(_) => 20
    case Again(_, _) => 10
    case Tried(_, _) => 15
    case Back => 6
  }

  function PendingRank(p: Pending): nat {
    match p
    case Free => 0
    case Waiting(_, _) => 6
    case Done(_, _) => 5
    case InHand(_, _) => 1
    case Delay(_, _) => 8
    case DelayOver(_, _) => 7
  }

  /** What a run can still do without being called again. */
  function Measure(c: Config, s: State): nat {
    40 * ((if s.step <= c.maxSteps then c.maxSteps + 1 - s.step else 0) + s.retry) + PlaceRank(s.place) + PendingRank(s.pending)
  }

  lemma StepLowersMeasure(c: Config, s: State, a: Action)
    requires Inv(c, s) && Enabled(c, s, a) && !a.Drive?
    ensures Measure(c, Apply(c, s, a)) < Measure(c, s)
  {
  }

  /** Every drive ends: without a new call the run takes at most as many steps as its measure says. */
  lemma {:induction false} DrivesEnd(c: Config, states: seq<State>, actions: seq<Action>, i: nat, j: nat)
    requires IsHistory(c, states, actions) && i <= j < |states|
    requires forall k :: i <= k < j ==> !actions[k].Drive?
    ensures j - i + Measure(c, states[j]) <= Measure(c, states[i])
    decreases j
  {
    if i < j {
      DrivesEnd(c, states, actions, i, j - 1);
      HistoryInv(c, states, actions, j - 1);
      assert IsStep(c, states[j - 1], actions[j - 1], states[j]);
      StepLowersMeasure(c, states[j - 1], actions[j - 1]);
    }
  }

  // ---------------------------------------------------------------- tightness

  function LastOf(states: seq<State>): State
    requires states != []
  {
    states[|states| - 1]
  }

  lemma Extend(c: Config, states: seq<State>, actions: seq<Action>, a: Action)
    requires IsHistory(c, states, actions) && Enabled(c, LastOf(states), a)
    ensures IsHistory(c, states + [Apply(c, LastOf(states), a)], actions + [a])
  {
    var longer := states + [Apply(c, LastOf(states), a)];
    forall i | 0 <= i <= |actions|
      ensures IsStep(c, longer[i], (actions + [a])[i], longer[i + 1])
    {
      if i < |actions| { assert IsStep(c, states[i], actions[i], states[i + 1]); }
    }
  }

  /** `n` times `x`, by addition. */
  function Times(n: nat, x: nat): nat {
    if n == 0 then 0 else Times(n - 1, x) + x
  }

  lemma {:induction false} TimesGrows(n: nat, x: nat, y: nat)
    requires x <= y
    ensures Times(n, x) <= Times(n, y)
    ensures n >= 1 ==> Times(n, y) >= y
  {
    if n > 0 {
      TimesGrows(n - 1, x, y);
    }
  }

  function Less(a: nat, b: nat): nat { if a <= b then a else b }

  /** Retrying a synchronous node n more times. */
  lemma {:induction false} UseRetries(c: Config, states: seq<State>, actions: seq<Action>, n: nat)
    returns (states': seq<State>, actions': seq<Action>)
    requires IsHistory(c, states, actions) && LastOf(states).place.Tried? && n <= LastOf(states).retry
    requires n == 0 || LastOf(states).place.attempt + n <= c.maxAttempts(LastOf(states).place.node)
    ensures IsHistory(c, states', actions')
    ensures var s, t := LastOf(states), LastOf(states');
            && t.place == Tried(s.place.node, s.place.attempt + n)
            && t.starts == s.starts + n && t.retry == s.retry - n && t.step == s.step && t.pending == s.pending
  {
    states', actions' := states, actions;
    if n > 0 {
      states', actions' := UseRetries(c, states, actions, n - 1);
      var a := RetrySync(true);
      Extend(c, states', actions', a);
      states', actions' := states' + [Apply(c, LastOf(states'), a)], actions' + [a];
    }
  }

  /** A fresh activation that starts once and uses n retries. */
  lemma UseStep(c: Config, states: seq<State>, actions: seq<Action>, node: string, n: nat)
    returns (states': seq<State>, actions': seq<Action>)
    requires IsHistory(c, states, actions) && n <= LastOf(states).retry && n + 1 <= Attempts(c, node)
    requires var s := LastOf(states); s.place.Head? && s.pending.Free? && s.step < c.maxSteps
    ensures IsHistory(c, states', actions')
    ensures var s, t := LastOf(states), LastOf(states');
            && t.place.Head? && t.pending.Free? && t.step == s.step + 1
            && t.starts == s.starts + 1 + n && t.retry == s.retry - n
  {
    Extend(c, states, actions, TakeFresh(node));
    states', actions' := states + [Apply(c, LastOf(states), TakeFresh(node))], actions + [TakeFresh(node)];
    Extend(c, states', actions', StartSync);
    states', actions' := states' + [Apply(c, LastOf(states'), StartSync)], actions' + [StartSync];
    states', actions' := UseRetries(c, states', actions', n);
    Extend(c, states', actions', FinishNode);
    states', actions' := states' + [Apply(c, LastOf(states'), FinishNode)], actions' + [FinishNode];
  }

  /** `n` steps on one node, each with as many retries as its limit and the budget allow. */
  lemma {:induction false} UseEverything(c: Config, node: string, n: nat) returns (states: seq<State>, actions: seq<Action>)
    requires n <= c.maxSteps
    ensures IsHistory(c, states, actions)
    ensures var s := LastOf(states);
            var used := Less(c.retryBudget, Times(n, Attempts(c, node) - 1));
            s.place.Head? && s.pending.Free? && s.step == n && s.retry == c.retryBudget - used && s.starts == n + used
  {
    if n == 0 {
      Extend(c, [Initial(c)], [], Drive);
      states, actions := [Initial(c)] + [Apply(c, Initial(c), Drive)], [] + [Drive];
    } else {
      states, actions := UseEverything(c, node, n - 1);
      states, actions := UseStep(c, states, actions, node, Less(LastOf(states).retry, Attempts(c, node) - 1));
    }
  }

  /** Retries that the activations in progress may still use when no node allows more than m. */
  function Room(s: State, m: nat): int {
    (match s.place
     case Fresh(_) => m
     case Again(_, n) => m + 1 - n
     case Tried(_, n) => m + 1 - n
     case _ => 0)
    + (match s.pending
       case Free => 0
       case Delay(_, n) => m - n
       case DelayOver(_, n) => m - n
       case Waiting(_, n) => m + 1 - n
       case Done(_, n) => m + 1 - n
       case InHand(_, n) => m + 1 - n)
  }

  ghost predicate Spent(c: Config, s: State, m: nat) {
    && s.retry <= c.retryBudget && c.retryBudget - s.retry + Room(s, m) <= Times(s.activations, m)
    && WithinLimits(c, s)
  }

  lemma StepSpends(c: Config, s: State, a: Action, m: nat)
    requires Spent(c, s, m) && Enabled(c, s, a) && forall node :: Attempts(c, node) <= m + 1
    ensures Spent(c, Apply(c, s, a), m)
  {
    StepKeepsLimits(c, s, a);
    var t := Apply(c, s, a);
    assert t.activations == s.activations
           || (t.activations == s.activations + 1 && Times(t.activations, m) == Times(s.activations, m) + m);
    assert s.place.Tried? || s.place.Again? ==> s.place.attempt <= m + 1;
    assert !s.pending.Free? ==> s.pending.attempt <= m + 1;
  }

  lemma {:induction false} HistorySpends(c: Config, states: seq<State>, actions: seq<Action>, m: nat, i: nat)
    requires IsHistory(c, states, actions) && i < |states| && forall node :: Attempts(c, node) <= m + 1
    ensures Spent(c, states[i], m)
  {
    if i > 0 {
      HistorySpends(c, states, actions, m, i - 1);
      assert IsStep(c, states[i - 1], actions[i - 1], states[i]);
      StepSpends(c, states[i - 1], actions[i - 1], m);
    }
  }

  lemma {:induction false} TimesInSteps(n: nat, k: nat, x: nat)
    requires n <= k
    ensures Times(n, x) <= Times(k, x)
    decreases k
  {
    if n < k {
      TimesInSteps(n, k - 1, x);
    }
  }

  /** When every node's retries over all steps fall short of the budget, some budget is left. */
  lemma BudgetIsLeft(c: Config, states: seq<State>, actions: seq<Action>, m: nat, i: nat)
    requires IsHistory(c, states, actions) && i < |states| && forall node :: Attempts(c, node) <= m + 1
    requires Times(c.maxSteps, m) < c.retryBudget
    ensures states[i].starts < c.maxSteps + c.retryBudget
  {
    HistoryInv(c, states, actions, i);
    HistorySpends(c, states, actions, m, i);
    TimesInSteps(states[i].activations, c.maxSteps, m);
    RoomIsLeft(c, states[i], m);
  }

  lemma RoomIsLeft(c: Config, s: State, m: nat)
    requires WithinLimits(c, s) && forall node :: Attempts(c, node) <= m + 1
    ensures Room(s, m) >= 0
  {
    assert s.place.Tried? || s.place.Again? ==> Attempts(c, s.place.node) <= m + 1;
    assert !s.pending.Free? ==> Attempts(c, s.pending.node) <= m + 1;
  }

  /** The most retries per activation that all steps together cannot spend the budget with. */
  lemma {:induction false} MostRetries(steps: nat, budget: nat, from: nat) returns (m: nat)
    requires steps >= 1 && Times(steps, from) < budget
    ensures from <= m && Times(steps, m) < budget <= Times(steps, m + 1)
    decreases budget - from
  {
    TimesGrows(steps, from, from);
    if budget <= Times(steps, from + 1) {
      m := from;
    } else {
      m := MostRetries(steps, budget, from + 1);
    }
  }

  ghost predicate Attains(c: Config, states: seq<State>, actions: seq<Action>) {
    IsHistory(c, states, actions) && LastOf(states).starts == c.maxSteps + c.retryBudget
  }

  /** Some node allows so many attempts that all steps together can spend the retry budget. */
  ghost predicate CanSpend(c: Config) {
    exists node :: Times(c.maxSteps, Attempts(c, node) - 1) >= c.retryBudget
  }

  /** The bound on starts is attained if and only if the nodes' attempt limits allow the retry budget to be spent. */
  lemma BoundIsTight(c: Config)
    ensures (exists states: seq<State>, actions: seq<Action> :: Attains(c, states, actions)) <==> CanSpend(c)
  {
    if node :| Times(c.maxSteps, Attempts(c, node) - 1) >= c.retryBudget {
      var states, actions := UseEverything(c, node, c.maxSteps);
      assert Attains(c, states, actions);
    } else {
      forall states: seq<State>, actions: seq<Action> | IsHistory(c, states, actions)
        ensures !Attains(c, states, actions)
      {
        CannotAttain(c, states, actions);
      }
    }
  }

  lemma CannotAttain(c: Config, states: seq<State>, actions: seq<Action>)
    requires IsHistory(c, states, actions) && !CanSpend(c)
    ensures !Attains(c, states, actions)
  {
    assert Times(c.maxSteps, Attempts(c, "") - 1) < c.retryBudget;
    if c.maxSteps == 0 {
      HistoryInv(c, states, actions, |states| - 1);
      NothingBeforeActivation(c, states, actions, |states| - 1);
    } else {
      var m := MostRetries(c.maxSteps, c.retryBudget, Attempts(c, "") - 1);
      forall node
        ensures Attempts(c, node) <= m + 1
      {
        if Attempts(c, node) > m + 1 {
          TimesGrows(c.maxSteps, m + 1, Attempts(c, node) - 1);
        }
      }
      BudgetIsLeft(c, states, actions, m, |states| - 1);
    }
  }

  ghost predicate Unstarted(c: Config, s: State) {
    s.activations == 0 ==>
      s.starts == 0 && s.retry == c.retryBudget && (s.place.Outside? || s.place.Head?) && s.pending.Free?
  }

  lemma {:induction false} NothingBeforeActivation(c: Config, states: seq<State>, actions: seq<Action>, i: nat)
    requires IsHistory(c, states, actions) && i < |states|
    ensures Unstarted(c, states[i])
  {
    if i > 0 {
      NothingBeforeActivation(c, states, actions, i - 1);
      assert IsStep(c, states[i - 1], actions[i - 1], states[i]);
    }
  }
}
