/**
 Trace replay (src/dage.cpp): prepare_trace_replay reads a recorded trace into a plan,
 and a replay run drives the same workflow with recorded executor outcomes.

 The main result is that replay simulates the original run.
 */
module Replay {
  import opened Base
  import opened DriveLoop

  const SCHEMA := 1

  datatype Event<V> = Event(
    schema: nat, workflowDigest: string, bundleDigest: string, runId: string, traceId: string,
    invocation: string, sequence: nat, body: Body<V>)

  datatype Recorded<V> = Recorded(invocation: string, node: string, outcome: Outcome<V>)

  datatype Plan<V> = Plan(
    runId: string, traceId: string, workflowDigest: string, bundleDigest: string, input: V,
    outcomes: seq<Recorded<V>>, expected: Option<Outcome<V>>)

  datatype ReplayError =
    | SchemaUnsupported | WorkflowMismatch | BundleMismatch | FullTraceRequired | TraceIncomplete
    | SequenceInvalid | InvocationIdRequired | RunNotFound

  // ---------------------------------------------------------------- reading a trace

  /** The reader's variables: the plan once run_started was seen, and the last sequence number of each run. */
  datatype Reader<V> = Reader(plan: Option<Plan<V>>, previous: map<string, nat>)

  function Start<V>(e: Event<V>, workflow: string, bundle: string): Result<Reader<V>, ReplayError> {
    if !e.body.RunStarted? then Success(Reader(None, map[]))
    else if e.schema != SCHEMA then Failure(SchemaUnsupported)
    else if e.workflowDigest != workflow then Failure(WorkflowMismatch)
    else if bundle != "" && e.bundleDigest != bundle then Failure(BundleMismatch)
    else if e.body.input.None? then Failure(FullTraceRequired)
    else
      Success(Reader(
                Some(Plan(e.runId, e.traceId, e.workflowDigest, e.bundleDigest, e.body.input.value, [], None)),
                map[e.runId := e.sequence]))
  }

  /** The final result keeps category, code and message of a failure. */
  function Final<V>(o: Outcome<V>): Outcome<V> {
    match o case Ok(_) => o case Err(f) => Err(f.(retryable := false))
  }

  function Note<V>(plan: Plan<V>, e: Event<V>): Result<Plan<V>, ReplayError> {
    match e.body
    case NodeSucceeded(node, executor, value) =>
      if executor == "" then Success(plan)
      else if e.invocation == "" then Failure(InvocationIdRequired)
      else if value.None? then Failure(FullTraceRequired)
      else Success(plan.(outcomes := plan.outcomes + [Recorded(e.invocation, node, Ok(value.value))]))
    case NodeFailed(node, executor, fault) =>
      if executor == "" then Success(plan)
      else if e.invocation == "" then Failure(InvocationIdRequired)
      else if fault.None? then Failure(FullTraceRequired)
      else Success(plan.(outcomes := plan.outcomes + [Recorded(e.invocation, node, Err(fault.value))]))
    case RunCompleted(outcome) =>
      if e.runId != plan.runId then Success(plan)
      else if outcome.None? then Failure(FullTraceRequired)
      else Success(plan.(expected := Some(Final(outcome.value))))
    case _ => Success(plan)
  }

  function Read<V>(r: Reader<V>, e: Event<V>, workflow: string, bundle: string): Result<Reader<V>, ReplayError> {
    if r.plan.None? then
      Start(e, workflow, bundle)
    else if e.traceId != r.plan.value.traceId then Success(r)
    else if e.runId !in r.previous then
      if !e.body.RunStarted? then Failure(TraceIncomplete)
      else Success(r.(previous := r.previous[e.runId := e.sequence]))
    else if e.sequence <= r.previous[e.runId] then Failure(SequenceInvalid)
    else if e.sequence != r.previous[e.runId] + 1 then Failure(TraceIncomplete)
    else
      match Note(r.plan.value, e)
      case Failure(error) => Failure(error)
      case Success(plan) => Success(Reader(Some(plan), r.previous[e.runId := e.sequence]))
  }

  /** The reader after the first `n` events. */
  function ReadAll<V>(events: seq<Event<V>>, n: nat, workflow: string, bundle: string): Result<Reader<V>, ReplayError>
    requires n <= |events|
  {
    if n == 0 then Success(Reader(None, map[]))
    else
      match ReadAll(events, n - 1, workflow, bundle)
      case Failure(error) => Failure(error)
      case Success(r) => Read(r, events[n - 1], workflow, bundle)
  }

  function Finish<V>(r: Reader<V>): Result<Plan<V>, ReplayError> {
    if r.plan.None? then Failure(RunNotFound)
    else if r.plan.value.expected.None? then Failure(TraceIncomplete)
    else Success(r.plan.value)
  }

  function Prepared<V>(events: seq<Event<V>>, workflow: string, bundle: string): Result<Plan<V>, ReplayError> {
    match ReadAll(events, |events|, workflow, bundle)
    case Failure(error) => Failure(error)
    case Success(r) => Finish(r)
  }

  lemma {:induction false} FailureStays<V(!new)>(events: seq<Event<V>>, workflow: string, bundle: string, i: nat, n: nat)
    requires i <= n <= |events| && ReadAll(events, i, workflow, bundle).Failure?
    ensures ReadAll(events, n, workflow, bundle) == ReadAll(events, i, workflow, bundle)
    decreases n
  {
    if i < n {
      FailureStays(events, workflow, bundle, i, n - 1);
    }
  }

  method PrepareTraceReplay<V(!new)>(events: seq<Event<V>>, workflow: string, bundle: string)
    returns (answer: Result<Plan<V>, ReplayError>)
    ensures answer == Prepared(events, workflow, bundle)
  {
    var reader: Reader<V> := Reader(None, map[]);
    for i := 0 to |events|
      invariant ReadAll(events, i, workflow, bundle) == Success(reader)
    {
      var read := Read(reader, events[i], workflow, bundle);
      if read.Failure? {
        FailureStays(events, workflow, bundle, i + 1, |events|);
        return Failure(read.error);
      }
      reader := read.value;
    }
    answer := Finish(reader);
  }

  // ---------------------------------------------------------------- what is accepted has no gap

  ghost predicate OfRun<V>(e: Event<V>, p: Plan<V>) {
    e.runId == p.runId && e.traceId == p.traceId
  }

  /** After `n` events the run was found to have started, as run `p` says. */
  ghost predicate Found<V(!new)>(events: seq<Event<V>>, n: nat, workflow: string, bundle: string, p: Plan<V>)
    requires n <= |events|
  {
    var read := ReadAll(events, n, workflow, bundle);
    && read.Success? && read.value.plan.Some?
    && read.value.plan.value.runId == p.runId && read.value.plan.value.traceId == p.traceId
    && p.runId in read.value.previous
  }

  lemma {:induction false} ReadKeepsRun<V(!new)>(r: Reader<V>, e: Event<V>, workflow: string, bundle: string)
    requires Read(r, e, workflow, bundle).Success? && r.plan.Some? && r.plan.value.runId in r.previous
    ensures var t := Read(r, e, workflow, bundle).value;
            && t.plan.Some? && t.plan.value.runId == r.plan.value.runId && t.plan.value.traceId == r.plan.value.traceId
            && r.plan.value.runId in t.previous
            && (if OfRun(e, r.plan.value)
                then e.sequence == r.previous[e.runId] + 1 == t.previous[e.runId]
                else t.previous[r.plan.value.runId] == r.previous[r.plan.value.runId])
  {
  }

  /** What reading event `n` does to the remembered sequence number of the run. */
  lemma {:induction false} ReadOneMore<V(!new)>(events: seq<Event<V>>, workflow: string, bundle: string, p: Plan<V>, n: nat)
    requires n < |events| && Found(events, n, workflow, bundle, p) && ReadAll(events, n + 1, workflow, bundle).Success?
    ensures Found(events, n + 1, workflow, bundle, p)
    ensures var before, after := Last(events, n, workflow, bundle, p), Last(events, n + 1, workflow, bundle, p);
            if OfRun(events[n], p) then events[n].sequence == before + 1 == after else after == before
  {
    ReadKeepsRun(ReadAll(events, n, workflow, bundle).value, events[n], workflow, bundle);
  }

  ghost function Last<V(!new)>(events: seq<Event<V>>, n: nat, workflow: string, bundle: string, p: Plan<V>): nat
    requires n <= |events| && Found(events, n, workflow, bundle, p)
  {
    ReadAll(events, n, workflow, bundle).value.previous[p.runId]
  }

  lemma {:induction false} SuccessSoFar<V(!new)>(events: seq<Event<V>>, workflow: string, bundle: string, i: nat, n: nat)
    requires i <= n <= |events| && ReadAll(events, n, workflow, bundle).Success?
    ensures ReadAll(events, i, workflow, bundle).Success?
    decreases n
  {
    if i < n {
      SuccessSoFar(events, workflow, bundle, i, n - 1);
    }
  }

  /** Without events of the run from `i` to `n` the remembered number stays. */
  lemma {:induction false} LastStays<V(!new)>(
    events: seq<Event<V>>, workflow: string, bundle: string, p: Plan<V>, i: nat, n: nat)
    requires i <= n <= |events| && ReadAll(events, n, workflow, bundle).Success? && Found(events, i, workflow, bundle, p)
    ensures Found(events, n, workflow, bundle, p)
    ensures (forall k :: i <= k < n ==> !OfRun(events[k], p)) ==>
              Last(events, n, workflow, bundle, p) == Last(events, i, workflow, bundle, p)
    decreases n
  {
    if i < n {
      LastStays(events, workflow, bundle, p, i, n - 1);
      ReadOneMore(events, workflow, bundle, p, n - 1);
    }
  }

  /**
   An accepted trace has no gap: from the event that starts the traced run, two of its
   events with none of its events between them carry consecutive sequence numbers.
   */
  lemma AcceptedIsContiguous<V(!new)>(
    events: seq<Event<V>>, workflow: string, bundle: string, p: Plan<V>, start: nat, i: nat, j: nat)
    requires Prepared(events, workflow, bundle) == Success(p)
    requires start <= i < j < |events| && Found(events, start + 1, workflow, bundle, p)
    requires ReadAll(events, start, workflow, bundle) == Success(Reader(None, map[]))
    requires OfRun(events[i], p) && OfRun(events[j], p) && forall k :: i < k < j ==> !OfRun(events[k], p)
    ensures events[j].sequence == events[i].sequence + 1
  {
    LastIsOwn(events, workflow, bundle, p, start, i);
    SuccessSoFar(events, workflow, bundle, j, |events|);
    LastStays(events, workflow, bundle, p, i + 1, j);
    SuccessSoFar(events, workflow, bundle, j + 1, |events|);
    ReadOneMore(events, workflow, bundle, p, j);
  }

  lemma {:induction false} LastIsOwn<V(!new)>(
    events: seq<Event<V>>, workflow: string, bundle: string, p: Plan<V>, start: nat, i: nat)
    requires start <= i < |events| && Found(events, start + 1, workflow, bundle, p) && OfRun(events[i], p)
    requires ReadAll(events, start, workflow, bundle) == Success(Reader(None, map[]))
    requires ReadAll(events, |events|, workflow, bundle).Success?
    ensures Found(events, i + 1, workflow, bundle, p) && Last(events, i + 1, workflow, bundle, p) == events[i].sequence
  {
    if start < i {
      SuccessSoFar(events, workflow, bundle, i + 1, |events|);
      SuccessSoFar(events, workflow, bundle, i, |events|);
      LastStays(events, workflow, bundle, p, start + 1, i);
      ReadOneMore(events, workflow, bundle, p, i);
    }
  }

  // ---------------------------------------------------------------- what is accepted, exactly

  /** The event that starts the traced run. */
  ghost predicate IsStart<V(!new)>(events: seq<Event<V>>, k: nat) {
    k < |events| && events[k].body.RunStarted? && forall j :: 0 <= j < k ==> !events[j].body.RunStarted?
  }

  /** Its schema, digests and payload fit. */
  predicate StartFits<V>(e: Event<V>, workflow: string, bundle: string) {
    && e.schema == 1 && e.workflowDigest == workflow && (bundle == "" || e.bundleDigest == bundle)
    && e.body.RunStarted? && e.body.input.Some?
  }

  /** The last event of a run of the traced kind among events k to n - 1. */
  ghost function Latest<V(!new)>(events: seq<Event<V>>, k: nat, n: nat, run: string): (i: Option<nat>)
    requires k <= n <= |events| && k < |events|
    ensures i.Some? ==> k <= i.value < n
  {
    if n == k then None
    else if events[n - 1].traceId == events[k].traceId && events[n - 1].runId == run then Some(n - 1)
    else Latest(events, k, n - 1, run)
  }

  /** What the payload of an event lacks. */
  function Lacks<V>(e: Event<V>, run: string): Option<ReplayError> {
    if (e.body.NodeSucceeded? || e.body.NodeFailed?) && e.body.executor != "" && e.invocation == "" then Some(InvocationIdRequired)
    else if e.body.NodeSucceeded? && e.body.executor != "" && e.body.value.None? then Some(FullTraceRequired)
    else if e.body.NodeFailed? && e.body.executor != "" && e.body.fault.None? then Some(FullTraceRequired)
    else if e.body.RunCompleted? && e.runId == run && e.body.outcome.None? then Some(FullTraceRequired)
    else None
  }

  /** What is wrong with event `j` of a trace that started at `k`: a run without start, a gap, or a payload that is missing. */
  ghost function Wrong<V(!new)>(events: seq<Event<V>>, k: nat, j: nat): Option<ReplayError>
    requires k < j < |events|
  {
    var e := events[j];
    if e.traceId != events[k].traceId then None
    else
      match Latest(events, k, j, e.runId)
      case None => if e.body.RunStarted? then None else Some(TraceIncomplete)
      case Some(i) =>
        if e.sequence <= events[i].sequence then Some(SequenceInvalid)
        else if e.sequence > events[i].sequence + 1 then Some(TraceIncomplete)
        else Lacks(e, events[k].runId)
  }

  /** The executor outcome an event of the trace records, if its run had started. */
  ghost function OutcomeAt<V(!new)>(events: seq<Event<V>>, k: nat, j: nat): seq<Recorded<V>>
    requires k < j < |events|
  {
    var e := events[j];
    if e.traceId != events[k].traceId || Latest(events, k, j, e.runId).None? then []
    else if e.body.NodeSucceeded? && e.body.executor != "" && e.body.value.Some? then
      [Recorded(e.invocation, e.body.node, Ok(e.body.value.value))]
    else if e.body.NodeFailed? && e.body.executor != "" && e.body.fault.Some? then
      [Recorded(e.invocation, e.body.node, Err(e.body.fault.value))]
    else []
  }

  /** The executor outcomes among events k + 1 to n - 1, in order. */
  ghost function OutcomesUpTo<V(!new)>(events: seq<Event<V>>, k: nat, n: nat): seq<Recorded<V>>
    requires k < n <= |events|
  {
    if n == k + 1 then [] else OutcomesUpTo(events, k, n - 1) + OutcomeAt(events, k, n - 1)
  }

  ghost predicate CompletesAt<V(!new)>(events: seq<Event<V>>, k: nat, j: nat)
    requires k < j < |events|
  {
    && events[j].traceId == events[k].traceId && events[j].runId == events[k].runId
    && events[j].body.RunCompleted? && events[j].body.outcome.Some?
  }

  /** The result of the last completion event of the traced run; a failure keeps category, code and message. */
  ghost function ResultUpTo<V(!new)>(events: seq<Event<V>>, k: nat, n: nat): Option<Outcome<V>>
    requires k < n <= |events|
  {
    if n == k + 1 then None
    else if CompletesAt(events, k, n - 1) then
      match events[n - 1].body.outcome.value
      case Ok(v) => Some(Ok(v))
      case Err(Fault(category, code, message, _)) => Some(Err(Fault(category, code, message, false)))
    else ResultUpTo(events, k, n - 1)
  }

  ghost function PlanUpTo<V(!new)>(events: seq<Event<V>>, k: nat, n: nat): Plan<V>
    requires k < n <= |events| && events[k].body.RunStarted? && events[k].body.input.Some?
  {
    var e := events[k];
    Plan(e.runId, e.traceId, e.workflowDigest, e.bundleDigest, e.body.input.value, OutcomesUpTo(events, k, n), ResultUpTo(events, k, n))
  }

  /** The reader's memory is the sequence number of each run's latest event. */
  ghost predicate Remembers<V(!new)>(events: seq<Event<V>>, k: nat, n: nat, previous: map<string, nat>)
    requires k < n <= |events|
  {
    forall run :: (run in previous <==> Latest(events, k, n, run).Some?)
                  && (run in previous ==> previous[run] == events[Latest(events, k, n, run).value].sequence)
  }

  lemma {:induction false} NothingYet<V(!new)>(events: seq<Event<V>>, workflow: string, bundle: string, n: nat)
    requires n <= |events| && forall j :: 0 <= j < n ==> !events[j].body.RunStarted?
    ensures ReadAll(events, n, workflow, bundle) == Success(Reader(None, map[]))
  {
    if n > 0 {
      NothingYet(events, workflow, bundle, n - 1);
    }
  }

  /** Reading one event of a started trace. */
  lemma ReadsOn<V(!new)>(events: seq<Event<V>>, workflow: string, bundle: string, k: nat, n: nat, previous: map<string, nat>)
    requires IsStart(events, k) && StartFits(events[k], workflow, bundle) && k < n < |events| && Remembers(events, k, n, previous)
    ensures var read := Read(Reader(Some(PlanUpTo(events, k, n)), previous), events[n], workflow, bundle);
            match Wrong(events, k, n)
            case Some(error) => read == Failure(error)
            case None =>
              && read.Success? && read.value.plan == Some(PlanUpTo(events, k, n + 1))
              && read.value.previous ==
                 if events[n].traceId == events[k].traceId then previous[events[n].runId := events[n].sequence] else previous
  {
    var e := events[n];
    assert e.runId in previous <==> Latest(events, k, n, e.runId).Some?;
    RunIsKnown(events, k, n);
    assert OutcomesUpTo(events, k, n) + [] == OutcomesUpTo(events, k, n);
  }

  lemma {:induction false} RunIsKnown<V(!new)>(events: seq<Event<V>>, k: nat, n: nat)
    requires k < n <= |events|
    ensures Latest(events, k, n, events[k].runId).Some?
  {
    if n > k + 1 {
      RunIsKnown(events, k, n - 1);
    }
  }

  lemma RemembersOn<V(!new)>(events: seq<Event<V>>, k: nat, n: nat, previous: map<string, nat>)
    requires k < n < |events| && Remembers(events, k, n, previous)
    ensures Remembers(events, k, n + 1,
              if events[n].traceId == events[k].traceId then previous[events[n].runId := events[n].sequence] else previous)
  {
  }

  /** The reader after the start: as long as nothing was wrong it holds the plan so far. */
  lemma {:induction false} ReadsSoFar<V(!new)>(events: seq<Event<V>>, workflow: string, bundle: string, k: nat, n: nat)
    returns (previous: map<string, nat>)
    requires IsStart(events, k) && StartFits(events[k], workflow, bundle) && k < n <= |events|
    requires forall j :: k < j < n ==> Wrong(events, k, j).None?
    ensures ReadAll(events, n, workflow, bundle) == Success(Reader(Some(PlanUpTo(events, k, n)), previous))
    ensures Remembers(events, k, n, previous)
  {
    if n == k + 1 {
      NothingYet(events, workflow, bundle, k);
      previous := map[events[k].runId := events[k].sequence];
      forall run
        ensures Latest(events, k, n, run) == if run == events[k].runId then Some(k) else None
      {
        assert Latest(events, k, k, run).None?;
      }
    } else {
      var before := ReadsSoFar(events, workflow, bundle, k, n - 1);
      ReadsOn(events, workflow, bundle, k, n - 1, before);
      RemembersOn(events, k, n - 1, before);
      previous := if events[n - 1].traceId == events[k].traceId then before[events[n - 1].runId := events[n - 1].sequence] else before;
    }
  }

  /** The answer when the start does not fit: the first thing that is wrong with it. */
  lemma StartIsChecked<V(!new)>(events: seq<Event<V>>, workflow: string, bundle: string, k: nat)
    requires IsStart(events, k)
    ensures var e := events[k];
            var answer := Prepared(events, workflow, bundle);
            && (e.schema != 1 ==> answer == Failure(SchemaUnsupported))
            && (e.schema == 1 && e.workflowDigest != workflow ==> answer == Failure(WorkflowMismatch))
            && (e.schema == 1 && e.workflowDigest == workflow && bundle != "" && e.bundleDigest != bundle ==>
                  answer == Failure(BundleMismatch))
            && (e.schema == 1 && e.workflowDigest == workflow && (bundle == "" || e.bundleDigest == bundle) && e.body.input.None? ==>
                  answer == Failure(FullTraceRequired))
  {
    NothingYet(events, workflow, bundle, k);
    if !StartFits(events[k], workflow, bundle) {
      FailureStays(events, workflow, bundle, k + 1, |events|);
    }
  }

  /** The answer when a later event is wrong: what is wrong with the first such event. */
  lemma FirstErrorIsTheAnswer<V(!new)>(events: seq<Event<V>>, workflow: string, bundle: string, k: nat, j: nat)
    requires IsStart(events, k) && StartFits(events[k], workflow, bundle) && k < j < |events|
    requires Wrong(events, k, j).Some? && forall i :: k < i < j ==> Wrong(events, k, i).None?
    ensures Prepared(events, workflow, bundle) == Failure(Wrong(events, k, j).value)
  {
    var previous := ReadsSoFar(events, workflow, bundle, k, j);
    ReadsOn(events, workflow, bundle, k, j, previous);
    FailureStays(events, workflow, bundle, j + 1, |events|);
  }

  /** The answer when nothing is wrong: the plan, unless the traced run was never completed. */
  lemma NothingWrongIsAccepted<V(!new)>(events: seq<Event<V>>, workflow: string, bundle: string, k: nat)
    requires IsStart(events, k) && StartFits(events[k], workflow, bundle)
    requires forall j :: k < j < |events| ==> Wrong(events, k, j).None?
    ensures Prepared(events, workflow, bundle) ==
            if ResultUpTo(events, k, |events|).Some? then Success(PlanUpTo(events, k, |events|)) else Failure(TraceIncomplete)
  {
    var previous := ReadsSoFar(events, workflow, bundle, k, |events|);
  }

  /** The traced run starts at `k` as expected, nothing after that is wrong, and it was completed. */
  ghost predicate Replayable<V(!new)>(events: seq<Event<V>>, workflow: string, bundle: string, k: nat) {
    && IsStart(events, k) && StartFits(events[k], workflow, bundle)
    && (forall j :: k < j < |events| ==> Wrong(events, k, j).None?)
    && ResultUpTo(events, k, |events|).Some?
  }

  lemma FirstWrong<V(!new)>(events: seq<Event<V>>, k: nat, j: nat) returns (i: nat)
    requires k < j < |events| && Wrong(events, k, j).Some?
    ensures k < i <= j && Wrong(events, k, i).Some? && forall h :: k < h < i ==> Wrong(events, k, h).None?
  {
    i := k + 1;
    while Wrong(events, k, i).None?
      invariant k < i <= j && forall h :: k < h < i ==> Wrong(events, k, h).None?
      decreases j - i
    {
      i := i + 1;
    }
  }

  /** A trace is accepted with a plan if and only if it is replayable and the plan is what its events say. */
  lemma AcceptedExactly<V(!new)>(events: seq<Event<V>>, workflow: string, bundle: string, p: Plan<V>)
    ensures Prepared(events, workflow, bundle) == Success(p) <==>
            exists k :: Replayable(events, workflow, bundle, k) && p == PlanUpTo(events, k, |events|)
    ensures (forall j :: 0 <= j < |events| ==> !events[j].body.RunStarted?) ==>
              Prepared(events, workflow, bundle) == Failure(RunNotFound)
  {
    if j :| 0 <= j < |events| && events[j].body.RunStarted? {
      var k := StartOf(events, j);
      if !StartFits(events[k], workflow, bundle) {
        StartIsChecked(events, workflow, bundle, k);
      } else if i :| k < i < |events| && Wrong(events, k, i).Some? {
        var first := FirstWrong(events, k, i);
        FirstErrorIsTheAnswer(events, workflow, bundle, k, first);
      } else {
        NothingWrongIsAccepted(events, workflow, bundle, k);
      }
    } else {
      NothingYet(events, workflow, bundle, |events|);
    }
  }

  lemma StartOf<V(!new)>(events: seq<Event<V>>, j: nat) returns (k: nat)
    requires j < |events| && events[j].body.RunStarted?
    ensures k <= j && IsStart(events, k)
    ensures forall h :: IsStart(events, h) ==> h == k
  {
    k := 0;
    while !events[k].body.RunStarted?
      invariant k <= j && forall h :: 0 <= h < k ==> !events[h].body.RunStarted?
      decreases j - k
    {
      k := k + 1;
    }
  }

  // ---------------------------------------------------------------- replaying

  const ROOT := "root"

  function Key(invocation: string, node: string): string {
    invocation + "\n" + node
  }

  type Queues<V> = map<string, seq<Outcome<V>>>

  function QueueAt<V>(q: Queues<V>, key: string): seq<Outcome<V>> {
    if key in q then q[key] else []
  }

  /** create_replay_run: the outcomes by invocation and node, in recorded order. */
  function Queued<V>(outcomes: seq<Recorded<V>>): Queues<V> {
    if outcomes == [] then map[]
    else
      var n := |outcomes| - 1;
      var q := Queued(outcomes[..n]);
      var key := Key(outcomes[n].invocation, outcomes[n].node);
      q[key := QueueAt(q, key) + [outcomes[n].outcome]]
  }

  const OUTCOME_MISSING := Fault("trace_replay", "REPLAY_OUTCOME_MISSING", "Recorded executor outcome is missing.", false)

  /** What a replay run uses as the result of a node, and the queues after taking it. */
  function Recall<V>(w: Workflow<V>, s: Run<V>, q: Queues<V>): (Outcome<V>, Queues<V>)
    requires s.current in w.nodes
  {
    var key := Key(ROOT, s.current);
    if w.nodes[s.current].kind != Executor then (Ok(NodeInput(w, s)), q)
    else if QueueAt(q, key) == [] then (Err(OUTCOME_MISSING), q)
    else (q[key][0], q[key := q[key][1..]])
  }

  datatype Stop = MaxEvents | MaxSteps | NodeNotFound | Quota

  datatype Ending<V> = Completed(outcome: Outcome<V>) | Stopped(reason: Stop)

  /** What one turn of the loop does: a whole visit, or the end. */
  datatype Turn<V> = Go(next: Run<V>, rest: Queues<V>, events: nat) | Halt(visited: seq<string>, ending: Ending<V>)

  function TurnOf<V>(w: Workflow<V>, s: Run<V>, q: Queues<V>, events: nat): (t: Turn<V>)
    ensures t.Go? ==> t.next.step == s.step + 1 <= w.maxSteps
  {
    if s.result.Some? then Halt([], Completed(s.result.value))
    else if w.maxEvents != 0 && events >= w.maxEvents then Halt([], Stopped(MaxEvents))
    else if s.step + 1 > w.maxSteps then Halt([], Stopped(MaxSteps))
    else if s.current !in w.nodes then Halt([], Stopped(NodeNotFound))
    else
      var (raw, rest) := Recall(w, s, q);
      if !w.within(Record(s.view, s.current, Settle(w, raw))) then Halt([s.current], Stopped(Quota))
      else Go(After(w, s, raw), rest, events + |VisitEvents(w, s, raw, 0)|)
  }

  /** The loop around a turn: the nodes visited and how it ends. `left` is the number of steps still allowed. */
  function Drive<V>(turn: (Run<V>, Queues<V>, nat) -> Turn<V>, left: nat, s: Run<V>, q: Queues<V>, events: nat)
    : (seq<string>, Ending<V>)
    decreases left
  {
    match turn(s, q, events)
    case Halt(visited, ending) => (visited, ending)
    case Go(next, rest, count) =>
      if left == 0 then ([], Stopped(MaxSteps))
      else
        var (visited, ending) := Drive(turn, left - 1, next, rest, count);
        ([s.current] + visited, ending)
  }

  function Turns<V>(w: Workflow<V>): (Run<V>, Queues<V>, nat) -> Turn<V> {
    (s: Run<V>, q: Queues<V>, events: nat) => TurnOf(w, s, q, events)
  }

  ghost predicate GivesTurns<V(!new)>(turn: (Run<V>, Queues<V>, nat) -> Turn<V>, w: Workflow<V>) {
    forall s, q, events {:trigger TurnOf(w, s, q, events)} :: turn(s, q, events) == TurnOf(w, s, q, events)
  }

  /** A whole replay run. */
  function Replayed<V>(w: Workflow<V>, input: V, outcomes: seq<Recorded<V>>): (seq<string>, Ending<V>) {
    Drive(Turns(w), w.maxSteps, Initial(w, input), Queued(outcomes), 1)
  }

  /** What stands in for an executor: its oldest recorded outcome, and the replay error when none is left. */
  lemma RecallAnswers<V(!new)>(w: Workflow<V>, s: Run<V>, q: Queues<V>)
    requires s.current in w.nodes
    ensures var key := "root" + "\n" + s.current;
            var left := if key in q then q[key] else [];
            && (w.nodes[s.current].kind != Executor ==> Recall(w, s, q) == (Ok(NodeInput(w, s)), q))
            && (w.nodes[s.current].kind == Executor && left != [] ==> Recall(w, s, q) == (left[0], q[key := left[1..]]))
            && (w.nodes[s.current].kind == Executor && left == [] ==>
                  && Recall(w, s, q).1 == q && Recall(w, s, q).0.Err?
                  && Recall(w, s, q).0.fault.category == "trace_replay" && Recall(w, s, q).0.fault.code == "REPLAY_OUTCOME_MISSING")
  {
  }

  /** A run created from a plan: its queues of recorded outcomes, in place. */
  class ReplayRun<V(==,!new)> {
    const run: RunState<V>
    var queues: Queues<V>

    constructor (run: RunState<V>, outcomes: seq<Recorded<V>>)
      ensures this.run == run && queues == Queued(outcomes)
    {
      this.run, this.queues := run, Queued(outcomes);
    }

    method TakeOutcome() returns (raw: Outcome<V>)
      requires run.current in run.workflow.nodes
      modifies this
      ensures (raw, queues) == Recall(run.workflow, run.Value(), old(queues))
    {
      if run.workflow.nodes[run.current].kind != Executor {
        return Ok(run.workflow.resolve(run.current, Touch(run.view, run.current)));
      }
      var key := Key(ROOT, run.current);
      if key !in queues || queues[key] == [] {
        return Err(OUTCOME_MISSING);
      }
      raw := queues[key][0];
      queues := queues[key := queues[key][1..]];
    }

    /** One turn of the loop: a whole visit, or the end. */
    method TakeTurn() returns (halted: Option<(seq<string>, Ending<V>)>)
      modifies this, run
      ensures match TurnOf(run.workflow, old(run.Value()), old(queues), old(run.events))
              case Halt(visited, ending) => halted == Some((visited, ending))
              case Go(next, rest, count) => halted.None? && run.Value() == next && queues == rest && run.events == count
    {
      var w := run.workflow;
      if run.result.Some? {
        return Some(([], Completed(run.result.value)));
      }
      if w.maxEvents != 0 && run.events >= w.maxEvents {
        return Some(([], Stopped(MaxEvents)));
      }
      if run.step + 1 > w.maxSteps {
        return Some(([], Stopped(MaxSteps)));
      }
      if run.current !in w.nodes {
        return Some(([], Stopped(NodeNotFound)));
      }
      var raw := TakeOutcome();
      if !w.within(Record(run.view, run.current, Settle(w, raw))) {
        return Some(([run.current], Stopped(Quota)));
      }
      run.FinishVisit(raw);
      halted := None;
    }

    /** One turn, in terms of any function that gives the turns of this workflow. */
    method Advance(ghost turn: (Run<V>, Queues<V>, nat) -> Turn<V>) returns (halted: Option<(seq<string>, Ending<V>)>)
      requires GivesTurns(turn, run.workflow)
      modifies this, run
      ensures match turn(old(run.Value()), old(queues), old(run.events))
              case Halt(visited, ending) => halted == Some((visited, ending))
              case Go(next, rest, count) => halted.None? && run.Value() == next && queues == rest && run.events == count
      ensures halted.None? ==> run.step == old(run.step) + 1 <= run.workflow.maxSteps
    {
      halted := TakeTurn();
    }

    /** The loop: it takes turns until one halts. */
    method Loop(ghost turn: (Run<V>, Queues<V>, nat) -> Turn<V>) returns (visited: seq<string>, ending: Ending<V>)
      requires GivesTurns(turn, run.workflow) && run.step <= run.workflow.maxSteps
      modifies this, run
      ensures (visited, ending) ==
              Drive(turn, run.workflow.maxSteps - old(run.step), old(run.Value()), old(queues), old(run.events))
    {
      ghost var all := Drive(turn, run.workflow.maxSteps - run.step, run.Value(), queues, run.events);
      visited := [];
      assert visited + all.0 == all.0;
      while true
        invariant run.step <= run.workflow.maxSteps
        invariant var rest := Drive(turn, run.workflow.maxSteps - run.step, run.Value(), queues, run.events);
                  all == (visited + rest.0, rest.1)
        decreases run.workflow.maxSteps - run.step
      {
        var node := run.current;
        var halted := Advance(turn);
        if halted.Some? {
          return visited + halted.value.0, halted.value.1;
        }
        ghost var later := Drive(turn, run.workflow.maxSteps - run.step, run.Value(), queues, run.events);
        assert visited + ([node] + later.0) == (visited + [node]) + later.0;
        visited := visited + [node];
      }
    }
  }

  /** create_replay_run and the run's execution. */
  method Execute<V(==,!new)>(w: Workflow<V>, input: V, outcomes: seq<Recorded<V>>)
    returns (visited: seq<string>, ending: Ending<V>)
    ensures (visited, ending) == Replayed(w, input, outcomes)
  {
    var run := new RunState(w, input);
    var replay := new ReplayRun(run, outcomes);
    visited, ending := replay.Loop(Turns(w));
  }

  // ---------------------------------------------------------------- the recorded trace is accepted

  /** The events of a run as a sink that captures everything receives them. */
  ghost function Envelopes<V(!new)>(bodies: seq<Body<V>>, workflow: string, bundle: string, run: string, trace: string): seq<Event<V>> {
    seq(|bodies|, i requires 0 <= i < |bodies| => Event(SCHEMA, workflow, bundle, run, trace, ROOT, i + 1, bodies[i]))
  }

  /** Bodies after run_started, with payload. */
  ghost predicate FullBody<V>(b: Body<V>) {
    match b
    case RunStarted(_) => false
    case NodeSucceeded(_, _, value) => value.Some?
    case NodeFailed(_, _, fault) => fault.Some?
    case RunCompleted(outcome) => outcome.Some?
    case Progress(_) => true
  }

  ghost predicate FullBodies<V(!new)>(bodies: seq<Body<V>>) {
    forall k :: 0 <= k < |bodies| ==> FullBody(bodies[k])
  }

  ghost predicate FullTrace<V(!new)>(bodies: seq<Body<V>>, input: V) {
    bodies != [] && bodies[0] == RunStarted(Some(input)) && forall k :: 1 <= k < |bodies| ==> FullBody(bodies[k])
  }

  function OutcomeOf<V>(b: Body<V>): seq<Recorded<V>> {
    match b
    case NodeSucceeded(node, executor, Some(v)) => if executor == "" then [] else [Recorded(ROOT, node, Ok(v))]
    case NodeFailed(node, executor, Some(f)) => if executor == "" then [] else [Recorded(ROOT, node, Err(f))]
    case _ => []
  }

  /** The outcomes among the first `n` bodies. */
  function Outcomes<V>(bodies: seq<Body<V>>, n: nat): seq<Recorded<V>>
    requires n <= |bodies|
  {
    if n == 0 then [] else Outcomes(bodies, n - 1) + OutcomeOf(bodies[n - 1])
  }

  function OutcomesOf<V>(bodies: seq<Body<V>>): seq<Recorded<V>> {
    Outcomes(bodies, |bodies|)
  }

  /** The last completion event among the first `n` bodies decides the expected result. */
  function Expected<V>(bodies: seq<Body<V>>, n: nat): Option<Outcome<V>>
    requires n <= |bodies|
  {
    if n == 0 then None
    else
      match bodies[n - 1]
      case RunCompleted(Some(o)) => Some(Final(o))
      case _ => Expected(bodies, n - 1)
  }

  function ExpectedOf<V>(bodies: seq<Body<V>>): Option<Outcome<V>> {
    Expected(bodies, |bodies|)
  }

  lemma ReadNext<V(!new)>(events: seq<Event<V>>, workflow: string, bundle: string, n: nat, r: Reader<V>)
    requires n < |events| && ReadAll(events, n, workflow, bundle) == Success(r)
    ensures ReadAll(events, n + 1, workflow, bundle) == Read(r, events[n], workflow, bundle)
  {
  }

  /** Reading the first `n` events of a full trace. */
  lemma {:induction false} FullTraceIsRead<V(!new)>(
    bodies: seq<Body<V>>, n: nat, input: V, workflow: string, bundle: string, run: string, trace: string)
    requires 1 <= n <= |bodies| && FullTrace(bodies, input)
    ensures ReadAll(Envelopes(bodies, workflow, bundle, run, trace), n, workflow, bundle) ==
            Success(Reader(Some(Plan(run, trace, workflow, bundle, input, Outcomes(bodies, n), Expected(bodies, n))),
                           map[run := n]))
  {
    var events := Envelopes(bodies, workflow, bundle, run, trace);
    if n == 1 {
      StartIsRead(bodies, events, input, workflow, bundle, run, trace);
    } else {
      FullTraceIsRead(bodies, n - 1, input, workflow, bundle, run, trace);
      assert FullBody(bodies[n - 1]);
      var plan := Plan(run, trace, workflow, bundle, input, Outcomes(bodies, n - 1), Expected(bodies, n - 1));
      EventIsRead(plan, bodies, n, events[n - 1], workflow, bundle);
      ReadNext(events, workflow, bundle, n - 1, Reader(Some(plan), map[run := n - 1]));
    }
  }

  lemma {:induction false} StartIsRead<V(!new)>(
    bodies: seq<Body<V>>, events: seq<Event<V>>, input: V, workflow: string, bundle: string, run: string, trace: string)
    requires FullTrace(bodies, input) && |events| >= 1
    requires events[0] == Event(SCHEMA, workflow, bundle, run, trace, ROOT, 1, bodies[0])
    ensures ReadAll(events, 1, workflow, bundle) ==
            Success(Reader(Some(Plan(run, trace, workflow, bundle, input, Outcomes(bodies, 1), Expected(bodies, 1))), map[run := 1]))
  {
    assert ReadAll(events, 0, workflow, bundle) == Success(Reader(None, map[]));
    assert ReadAll(events, 1, workflow, bundle) == Start(events[0], workflow, bundle);
    assert Outcomes(bodies, 1) == Outcomes(bodies, 0) == [];
    assert Expected(bodies, 1) == Expected(bodies, 0) == None;
  }

  lemma {:induction false} EventIsRead<V(!new)>(plan: Plan<V>, bodies: seq<Body<V>>, n: nat, e: Event<V>, workflow: string, bundle: string)
    requires 1 <= n <= |bodies| && FullBody(bodies[n - 1])
    requires e == Event(e.schema, e.workflowDigest, e.bundleDigest, plan.runId, plan.traceId, ROOT, n, bodies[n - 1])
    requires plan.outcomes == Outcomes(bodies, n - 1) && plan.expected == Expected(bodies, n - 1)
    ensures Read(Reader(Some(plan), map[plan.runId := n - 1]), e, workflow, bundle) ==
            Success(Reader(Some(plan.(outcomes := Outcomes(bodies, n), expected := Expected(bodies, n))), map[plan.runId := n]))
  {
    NoteIsRead(plan, bodies, n, e);
    assert map[plan.runId := n - 1][plan.runId := n] == map[plan.runId := n];
  }

  lemma {:induction false} NoteIsRead<V(!new)>(plan: Plan<V>, bodies: seq<Body<V>>, n: nat, e: Event<V>)
    requires 1 <= n <= |bodies| && e.body == bodies[n - 1] && FullBody(e.body) && e.invocation == ROOT && e.runId == plan.runId
    requires plan.outcomes == Outcomes(bodies, n - 1) && plan.expected == Expected(bodies, n - 1)
    ensures Note(plan, e) == Success(plan.(outcomes := Outcomes(bodies, n), expected := Expected(bodies, n)))
  {
    assert Outcomes(bodies, n - 1) + [] == Outcomes(bodies, n - 1);
  }

  lemma {:induction false} OutcomesPrefix<V(!new)>(a: seq<Body<V>>, b: seq<Body<V>>, n: nat)
    requires n <= |a|
    ensures Outcomes(a + b, n) == Outcomes(a, n) && Expected(a + b, n) == Expected(a, n)
  {
    if n > 0 {
      OutcomesPrefix(a, b, n - 1);
    }
  }

  lemma {:induction false} OutcomesSuffix<V(!new)>(a: seq<Body<V>>, b: seq<Body<V>>, n: nat)
    requires n <= |b|
    ensures Outcomes(a + b, |a| + n) == Outcomes(a, |a|) + Outcomes(b, n)
  {
    if n == 0 {
      OutcomesPrefix(a, b, |a|);
    } else {
      OutcomesSuffix(a, b, n - 1);
      assert (a + b)[|a| + n - 1] == b[n - 1];
      assert Outcomes(a + b, |a| + n) == Outcomes(a + b, |a| + n - 1) + OutcomeOf(b[n - 1]);
      Assoc(Outcomes(a, |a|), Outcomes(b, n - 1), OutcomeOf(b[n - 1]));
    }
  }

  lemma {:induction false} ExpectedSuffix<V(!new)>(a: seq<Body<V>>, b: seq<Body<V>>, n: nat)
    requires n <= |b|
    ensures Expected(a + b, |a| + n) == if Expected(b, n).Some? then Expected(b, n) else Expected(a, |a|)
  {
    if n == 0 {
      OutcomesPrefix(a, b, |a|);
    } else {
      ExpectedSuffix(a, b, n - 1);
      assert (a + b)[|a| + n - 1] == b[n - 1];
    }
  }

  lemma OutcomesConcat<V(!new)>(a: seq<Body<V>>, b: seq<Body<V>>)
    ensures OutcomesOf(a + b) == OutcomesOf(a) + OutcomesOf(b)
  {
    OutcomesSuffix(a, b, |b|);
  }

  lemma ExpectedConcat<V(!new)>(a: seq<Body<V>>, b: seq<Body<V>>)
    ensures ExpectedOf(a + b) == if ExpectedOf(b).Some? then ExpectedOf(b) else ExpectedOf(a)
  {
    ExpectedSuffix(a, b, |b|);
  }

  lemma Assoc<T>(a: seq<T>, b: seq<T>, c: seq<T>)
    ensures (a + b) + c == a + (b + c)
  {
  }

  lemma ProgressSaysNothing<V(!new)>(bodies: seq<Body<V>>)
    requires forall i :: 0 <= i < |bodies| ==> bodies[i].Progress?
    ensures OutcomesOf(bodies) == [] && ExpectedOf(bodies).None?
  {
    ProgressUpTo(bodies, |bodies|);
  }

  lemma {:induction false} ProgressUpTo<V(!new)>(bodies: seq<Body<V>>, n: nat)
    requires n <= |bodies| && forall i :: 0 <= i < |bodies| ==> bodies[i].Progress?
    ensures Outcomes(bodies, n) == [] && Expected(bodies, n).None?
  {
    if n > 0 {
      ProgressUpTo(bodies, n - 1);
    }
  }

  lemma OneBody<V(!new)>(b: Body<V>)
    ensures OutcomesOf([b]) == OutcomeOf(b)
    ensures ExpectedOf([b]) == match b case RunCompleted(Some(o)) => Some(Final(o)) case _ => None
  {
    assert Outcomes([b], 0) == [] && Expected([b], 0).None?;
  }

  /** The outcome a visit leaves in the trace. */
  function Own<V>(w: Workflow<V>, s: Run<V>, raw: Outcome<V>): seq<Recorded<V>>
    requires s.current in w.nodes
  {
    if w.nodes[s.current].executor == "" then [] else [Recorded(ROOT, s.current, Settle(w, raw))]
  }

  lemma VisitIsRecorded<V(!new)>(w: Workflow<V>, s: Run<V>, raw: Outcome<V>, extra: nat)
    requires s.current in w.nodes
    ensures var bodies := VisitEvents(w, s, raw, extra);
            && FullBodies(bodies)
            && OutcomesOf(bodies) == Own(w, s, raw)
            && ExpectedOf(bodies) == match After(w, s, raw).result case None => None case Some(o) => Some(Final(o))
  {
    var settled := Settle(w, raw);
    var head := [Progress("node_started"), Progress("node_input_resolved")] + Repeat<V>("executor", extra);
    var result := ResultEvent(s.current, w.nodes[s.current], settled);
    PiecesAreRecorded(head, result, LeaveEvents(w, s, settled), After(w, s, raw).result);
  }

  lemma Quiet<V(!new)>(a: seq<Body<V>>, b: seq<Body<V>>, c: seq<Body<V>>)
    requires forall i :: 0 <= i < |a| ==> a[i].Progress?
    requires forall i :: 0 <= i < |c| ==> c[i].Progress?
    ensures OutcomesOf(a + b + c) == OutcomesOf(b) && ExpectedOf(a + b + c) == ExpectedOf(b)
  {
    ProgressSaysNothing(a);
    ProgressSaysNothing(c);
    OutcomesConcat(a, b);
    OutcomesConcat(a + b, c);
    ExpectedConcat(a, b);
    ExpectedConcat(a + b, c);
    assert [] + OutcomesOf(b) + [] == OutcomesOf(b);
  }

  lemma FullPieces<V(!new)>(head: seq<Body<V>>, result: Body<V>, edges: seq<Body<V>>, tail: seq<Body<V>>)
    requires FullBodies(head) && FullBody(result) && FullBodies(edges) && FullBodies(tail)
    ensures FullBodies(head + [result] + edges + tail)
  {
  }

  lemma PiecesAreRecorded<V(!new)>(head: seq<Body<V>>, result: Body<V>, edges: seq<Body<V>>, after: Option<Outcome<V>>)
    requires forall i :: 0 <= i < |head| ==> head[i].Progress?
    requires forall i :: 0 <= i < |edges| ==> edges[i].Progress?
    requires FullBody(result) && !result.RunCompleted?
    ensures var bodies := head + [result] + edges + (if after.Some? then [RunCompleted(after)] else []);
            && FullBodies(bodies)
            && OutcomesOf(bodies) == OutcomeOf(result)
            && ExpectedOf(bodies) == match after case None => None case Some(o) => Some(Final(o))
  {
    Quiet(head, [result], edges);
    OneBody(result);
    FullPieces(head, result, edges, if after.Some? then [RunCompleted(after)] else []);
    var body := head + [result] + edges;
    if after.Some? {
      OneBody(RunCompleted(after));
      OutcomesConcat(body, [RunCompleted(after)]);
      ExpectedConcat(body, [RunCompleted(after)]);
      assert OutcomeOf(result) + [] == OutcomeOf(result);
    } else {
      assert body + [] == body;
    }
  }

  /** What each visit leaves in the trace. */
  ghost function Owns<V(!new)>(w: Workflow<V>, states: seq<Run<V>>, visits: seq<Visit<V>>): seq<seq<Recorded<V>>>
    requires VisitsNodes(w, states, visits)
  {
    seq(|visits|, k requires 0 <= k < |visits| => Own(w, states[k], visits[k].raw))
  }

  /** The outcomes recorded from visit `i` on. */
  function Remaining<V>(owns: seq<seq<Recorded<V>>>, i: nat): seq<Recorded<V>>
    requires i <= |owns|
    decreases |owns| - i
  {
    if i == |owns| then [] else owns[i] + Remaining(owns, i + 1)
  }

  lemma StepIsFull<V(!new)>(w: Workflow<V>, input: V, states: seq<Run<V>>, visits: seq<Visit<V>>, i: nat)
    requires IsHistory(w, input, states, visits) && i < |visits|
    ensures FullBodies(visits[i].events)
    ensures OutcomesOf(visits[i].events) == Own(w, states[i], visits[i].raw)
    ensures ExpectedOf(visits[i].events) == match states[i + 1].result case None => None case Some(o) => Some(Final(o))
  {
    assert IsStep(w, input, states, visits, i);
    VisitIsRecorded(w, states[i], visits[i].raw, visits[i].extra);
  }

  lemma {:induction false} TraceIsFull<V(!new)>(input: V, visits: seq<Visit<V>>, i: nat)
    requires i <= |visits| && forall n :: 0 <= n < |visits| ==> FullBodies(visits[n].events)
    ensures FullTrace(Trace(input, visits, i), input)
  {
    if i > 0 {
      TraceIsFull(input, visits, i - 1);
    }
  }

  /** `f` of the trace up to visit `k` and its events is the two put together. */
  ghost predicate Splits<V(!new)>(f: seq<Body<V>> -> seq<Recorded<V>>, input: V, visits: seq<Visit<V>>, owns: seq<seq<Recorded<V>>>, k: nat)
    requires k < |visits| == |owns|
  {
    f(Trace(input, visits, k + 1)) == f(Trace(input, visits, k)) + owns[k]
  }

  /** What is collected so far and what remains make up the whole, at every visit. */
  lemma {:induction false} Collects<V(!new)>(
    f: seq<Body<V>> -> seq<Recorded<V>>, input: V, visits: seq<Visit<V>>, owns: seq<seq<Recorded<V>>>, i: nat)
    requires i <= |visits| == |owns| && f(Trace(input, visits, 0)) == []
    requires forall k :: 0 <= k < |visits| ==> Splits(f, input, visits, owns, k)
    ensures f(Trace(input, visits, i)) + Remaining(owns, i) == Remaining(owns, 0)
  {
    if i == 0 {
      assert [] + Remaining(owns, 0) == Remaining(owns, 0);
    } else {
      Collects(f, input, visits, owns, i - 1);
      assert Splits(f, input, visits, owns, i - 1);
      Assoc(f(Trace(input, visits, i - 1)), owns[i - 1], Remaining(owns, i));
    }
  }

  lemma TraceKeepsOutcomes<V(!new)>(input: V, visits: seq<Visit<V>>, owns: seq<seq<Recorded<V>>>)
    requires |visits| == |owns| && forall k :: 0 <= k < |visits| ==> OutcomesOf(visits[k].events) == owns[k]
    ensures OutcomesOf(Trace(input, visits, |visits|)) == Remaining(owns, 0)
  {
    var f := (bodies: seq<Body<V>>) => OutcomesOf(bodies);
    OneBody(RunStarted(Some(input)));
    forall k | 0 <= k < |visits|
      ensures Splits(f, input, visits, owns, k)
    {
      OutcomesConcat(Trace(input, visits, k), visits[k].events);
    }
    Collects(f, input, visits, owns, |visits|);
    assert OutcomesOf(Trace(input, visits, |visits|)) + [] == OutcomesOf(Trace(input, visits, |visits|));
  }

  /**
   The trace of a completed run is accepted: its sequence numbers have no gap, every
   payload is there, and the plan holds the executor outcomes in order and the final result.
   */
  lemma TraceIsAccepted<V(!new)>(
    w: Workflow<V>, input: V, states: seq<Run<V>>, visits: seq<Visit<V>>,
    workflow: string, bundle: string, run: string, trace: string)
    requires IsHistory(w, input, states, visits) && states[|visits|].result.Some?
    ensures Prepared(Envelopes(Trace(input, visits, |visits|), workflow, bundle, run, trace), workflow, bundle) ==
            Success(Plan(run, trace, workflow, bundle, input, Remaining(Owns(w, states, visits), 0),
                         Some(Final(states[|visits|].result.value))))
  {
    TraceIsComplete(w, input, states, visits);
    FullTraceIsPrepared(Trace(input, visits, |visits|), input, workflow, bundle, run, trace);
  }

  lemma VisitsAreRecorded<V(!new)>(w: Workflow<V>, input: V, states: seq<Run<V>>, visits: seq<Visit<V>>)
    requires IsHistory(w, input, states, visits)
    ensures forall i :: 0 <= i < |visits| ==>
                          FullBodies(visits[i].events) && OutcomesOf(visits[i].events) == Owns(w, states, visits)[i]
  {
    forall i | 0 <= i < |visits|
      ensures FullBodies(visits[i].events) && OutcomesOf(visits[i].events) == Owns(w, states, visits)[i]
    {
      StepIsFull(w, input, states, visits, i);
    }
  }

  lemma TraceIsComplete<V(!new)>(w: Workflow<V>, input: V, states: seq<Run<V>>, visits: seq<Visit<V>>)
    requires IsHistory(w, input, states, visits) && states[|visits|].result.Some?
    ensures var bodies := Trace(input, visits, |visits|);
            && FullTrace(bodies, input) && OutcomesOf(bodies) == Remaining(Owns(w, states, visits), 0)
            && ExpectedOf(bodies) == Some(Final(states[|visits|].result.value))
  {
    var owns := Owns(w, states, visits);
    VisitsAreRecorded(w, input, states, visits);
    TraceIsFull(input, visits, |visits|);
    TraceKeepsOutcomes(input, visits, owns);
    LastVisitDecides(w, input, states, visits);
  }

  lemma LastVisitDecides<V(!new)>(w: Workflow<V>, input: V, states: seq<Run<V>>, visits: seq<Visit<V>>)
    requires IsHistory(w, input, states, visits) && states[|visits|].result.Some?
    ensures ExpectedOf(Trace(input, visits, |visits|)) == Some(Final(states[|visits|].result.value))
  {
    StepIsFull(w, input, states, visits, |visits| - 1);
    ExpectedConcat(Trace(input, visits, |visits| - 1), visits[|visits| - 1].events);
  }

  lemma FullTraceIsPrepared<V(!new)>(bodies: seq<Body<V>>, input: V, workflow: string, bundle: string, run: string, trace: string)
    requires FullTrace(bodies, input) && ExpectedOf(bodies).Some?
    ensures Prepared(Envelopes(bodies, workflow, bundle, run, trace), workflow, bundle) ==
            Success(Plan(run, trace, workflow, bundle, input, OutcomesOf(bodies), ExpectedOf(bodies)))
  {
    FullTraceIsRead(bodies, |bodies|, input, workflow, bundle, run, trace);
  }

  // ---------------------------------------------------------------- replay simulates the run

  function For<V>(outcomes: seq<Recorded<V>>, node: string): seq<Outcome<V>> {
    if outcomes == [] then []
    else For(outcomes[..|outcomes| - 1], node)
         + if outcomes[|outcomes| - 1].node == node then [outcomes[|outcomes| - 1].outcome] else []
  }

  lemma {:induction false} ForConcat<V(!new)>(a: seq<Recorded<V>>, b: seq<Recorded<V>>, node: string)
    ensures For(a + b, node) == For(a, node) + For(b, node)
    decreases b
  {
    if b == [] {
      assert a + b == a;
    } else {
      var n := |b| - 1;
      assert (a + b)[..|a| + n] == a + b[..n] && (a + b)[|a| + n] == b[n];
      ForConcat(a, b[..n], node);
    }
  }

  lemma KeysDiffer(a: string, b: string)
    requires Key(ROOT, a) == Key(ROOT, b)
    ensures a == b
  {
    assert a == Key(ROOT, a)[5..] && b == Key(ROOT, b)[5..];
  }

  /** The queue of a node holds its recorded outcomes in order. */
  lemma {:induction false} QueueIsRecordedOrder<V(!new)>(outcomes: seq<Recorded<V>>, node: string)
    requires forall i :: 0 <= i < |outcomes| ==> outcomes[i].invocation == ROOT
    ensures QueueAt(Queued(outcomes), Key(ROOT, node)) == For(outcomes, node)
  {
    if outcomes != [] {
      var n := |outcomes| - 1;
      QueueIsRecordedOrder(outcomes[..n], node);
      if Key(ROOT, outcomes[n].node) == Key(ROOT, node) {
        KeysDiffer(outcomes[n].node, node);
      }
    }
  }

  lemma {:induction false} RemainingIsRoot<V(!new)>(owns: seq<seq<Recorded<V>>>, i: nat)
    requires i <= |owns| && forall n, k :: 0 <= n < |owns| && 0 <= k < |owns[n]| ==> owns[n][k].invocation == ROOT
    ensures forall k :: 0 <= k < |Remaining(owns, i)| ==> Remaining(owns, i)[k].invocation == ROOT
    decreases |owns| - i
  {
    if i < |owns| {
      RemainingIsRoot(owns, i + 1);
    }
  }

  /** Validation: a node that needs an executor names one. */
  ghost predicate ExecutorsNamed<V>(w: Workflow<V>) {
    forall id :: id in w.nodes && w.nodes[id].kind == Executor ==> w.nodes[id].executor != ""
  }

  /** The queues hold exactly what the visits from `i` on need. */
  ghost predicate Supplied<V(!new)>(w: Workflow<V>, owns: seq<seq<Recorded<V>>>, i: nat, q: Queues<V>)
    requires i <= |owns|
  {
    forall n :: n in w.nodes && w.nodes[n].kind == Executor ==> QueueAt(q, Key(ROOT, n)) == For(Remaining(owns, i), n)
  }

  lemma SettleTwice<V(!new)>(w: Workflow<V>, s: Run<V>, raw: Outcome<V>, extra: nat)
    requires s.current in w.nodes
    ensures Settle(w, Settle(w, raw)) == Settle(w, raw)
    ensures After(w, s, Settle(w, raw)) == After(w, s, raw)
    ensures |VisitEvents(w, s, Settle(w, raw), 0)| <= |VisitEvents(w, s, raw, extra)|
  {
  }

  /** What the queue of an executor node holds before and after a visit. */
  lemma QueueAdvances<V(!new)>(
    w: Workflow<V>, s: Run<V>, made: Outcome<V>, owns: seq<seq<Recorded<V>>>, i: nat, q: Queues<V>, n: string)
    requires s.current in w.nodes && ExecutorsNamed(w) && n in w.nodes && w.nodes[n].kind == Executor
    requires i < |owns| && owns[i] == Own(w, s, made) && Supplied(w, owns, i, q)
    ensures QueueAt(q, Key(ROOT, n)) == (if n == s.current then [Settle(w, made)] else []) + For(Remaining(owns, i + 1), n)
  {
    ForConcat(owns[i], Remaining(owns, i + 1), n);
    ForOwn(w, s, made, n);
  }

  lemma RecallTakesHead<V(!new)>(w: Workflow<V>, s: Run<V>, q: Queues<V>, head: Outcome<V>, rest: seq<Outcome<V>>, n: string)
    requires s.current in w.nodes && w.nodes[s.current].kind == Executor && QueueAt(q, Key(ROOT, s.current)) == [head] + rest
    ensures Recall(w, s, q).0 == head
    ensures QueueAt(Recall(w, s, q).1, Key(ROOT, n)) == if n == s.current then rest else QueueAt(q, Key(ROOT, n))
  {
    if Key(ROOT, n) == Key(ROOT, s.current) {
      KeysDiffer(n, s.current);
    }
  }

  lemma RecallGivesRecorded<V(!new)>(w: Workflow<V>, s: Run<V>, made: Outcome<V>, owns: seq<seq<Recorded<V>>>, i: nat, q: Queues<V>)
    requires s.current in w.nodes && ExecutorsNamed(w) && Possible(w, s, made)
    requires i < |owns| && owns[i] == Own(w, s, made) && Supplied(w, owns, i, q)
    ensures var (raw, rest) := Recall(w, s, q);
            && Settle(w, raw) == Settle(w, made) && (raw == made || raw == Settle(w, made))
            && Supplied(w, owns, i + 1, rest)
  {
    var later := Remaining(owns, i + 1);
    if w.nodes[s.current].kind == Executor {
      QueueAdvances(w, s, made, owns, i, q, s.current);
      RecallTakesHead(w, s, q, Settle(w, made), For(later, s.current), s.current);
    }
    forall n | n in w.nodes && w.nodes[n].kind == Executor
      ensures QueueAt(Recall(w, s, q).1, Key(ROOT, n)) == For(later, n)
    {
      QueueAdvances(w, s, made, owns, i, q, n);
      if w.nodes[s.current].kind == Executor {
        RecallTakesHead(w, s, q, Settle(w, made), For(later, s.current), n);
      }
    }
  }

  lemma ForOwn<V(!new)>(w: Workflow<V>, s: Run<V>, raw: Outcome<V>, n: string)
    requires s.current in w.nodes
    ensures For(Own(w, s, raw), n) == if n == s.current && w.nodes[n].executor != "" then [Settle(w, raw)] else []
  {
    var own := Own(w, s, raw);
    if own != [] {
      assert own[..0] == [];
    }
  }

  /** One turn of the replay is one visit of the history. */
  lemma TurnMatches<V(!new)>(
    w: Workflow<V>, s: Run<V>, v: Visit<V>, t: Run<V>, emitted: nat, owns: seq<seq<Recorded<V>>>, i: nat, q: Queues<V>, events: nat)
    requires s.current in w.nodes && IsVisit(w, s, emitted, v, t) && ExecutorsNamed(w) && events <= emitted
    requires i < |owns| && owns[i] == Own(w, s, v.raw) && Supplied(w, owns, i, q)
    ensures var turn := TurnOf(w, s, q, events);
            turn.Go? && turn.next == t && Supplied(w, owns, i + 1, turn.rest) && turn.events <= emitted + |v.events|
  {
    RecallGivesRecorded(w, s, v.raw, owns, i, q);
    SettleTwice(w, s, v.raw, v.extra);
  }

  /** From every ready configuration at `i`, a turn leads to the next run and a ready configuration. */
  ghost predicate Advances<V(!new)>(
    turn: (Run<V>, Queues<V>, nat) -> Turn<V>, ready: (nat, Queues<V>, nat) -> bool, states: seq<Run<V>>, i: nat)
    requires i + 1 < |states|
  {
    forall q, events :: ready(i, q, events) ==>
      var t := turn(states[i], q, events);
      t.Go? && t.next == states[i + 1] && ready(i + 1, t.rest, t.events)
  }

  ghost predicate Halts<V(!new)>(
    turn: (Run<V>, Queues<V>, nat) -> Turn<V>, ready: (nat, Queues<V>, nat) -> bool, s: Run<V>, i: nat, ending: Ending<V>)
  {
    forall q, events :: ready(i, q, events) ==> turn(s, q, events) == Halt([], ending)
  }

  /** A loop whose turns advance along `states` and stop at the last drives through all of them. */
  lemma {:induction false} DrivesThrough<V(!new)>(
    turn: (Run<V>, Queues<V>, nat) -> Turn<V>, ready: (nat, Queues<V>, nat) -> bool, states: seq<Run<V>>,
    last: nat, i: nat, q: Queues<V>, events: nat, left: nat, ending: Ending<V>)
    requires i <= last == |states| - 1 && left + i >= last && ready(i, q, events)
    requires forall k :: 0 <= k < last ==> Advances(turn, ready, states, k)
    requires Halts(turn, ready, states[last], last, ending)
    ensures Drive(turn, left, states[i], q, events) == (Visited(states, i), ending)
    decreases |states| - i
  {
    if i < last {
      assert Advances(turn, ready, states, i);
      var t := turn(states[i], q, events);
      DrivesThrough(turn, ready, states, last, i + 1, t.rest, t.events, left - 1, ending);
      assert Visited(states, i) == [states[i].current] + Visited(states, i + 1);
    } else {
      assert Visited(states, i) == [];
    }
  }

  ghost function Ready<V(!new)>(w: Workflow<V>, input: V, visits: seq<Visit<V>>, owns: seq<seq<Recorded<V>>>): (nat, Queues<V>, nat) -> bool
    requires |owns| == |visits|
  {
    (i: nat, q: Queues<V>, events: nat) => i <= |visits| && Supplied(w, owns, i, q) && events <= |Trace(input, visits, i)|
  }

  lemma HistoryAdvances<V(!new)>(w: Workflow<V>, input: V, states: seq<Run<V>>, visits: seq<Visit<V>>, i: nat)
    requires IsHistory(w, input, states, visits) && ExecutorsNamed(w) && i < |visits|
    ensures Advances(Turns(w), Ready(w, input, visits, Owns(w, states, visits)), states, i)
  {
    var owns := Owns(w, states, visits);
    assert IsStep(w, input, states, visits, i);
    forall q, events | Ready(w, input, visits, owns)(i, q, events)
      ensures var t := Turns(w)(states[i], q, events);
              t.Go? && t.next == states[i + 1] && Ready(w, input, visits, owns)(i + 1, t.rest, t.events)
    {
      TurnIsReady(w, input, visits, owns, i, states[i], states[i + 1], q, events);
    }
  }

  lemma TurnIsReady<V(!new)>(
    w: Workflow<V>, input: V, visits: seq<Visit<V>>, owns: seq<seq<Recorded<V>>>, i: nat, s: Run<V>, t: Run<V>, q: Queues<V>, events: nat)
    requires i < |visits| == |owns| && ExecutorsNamed(w) && s.current in w.nodes
    requires IsVisit(w, s, |Trace(input, visits, i)|, visits[i], t) && owns[i] == Own(w, s, visits[i].raw)
    requires Ready(w, input, visits, owns)(i, q, events)
    ensures var turn := Turns(w)(s, q, events);
            turn.Go? && turn.next == t && Ready(w, input, visits, owns)(i + 1, turn.rest, turn.events)
  {
    TurnMatches(w, s, visits[i], t, |Trace(input, visits, i)|, owns, i, q, events);
    TraceGrows(input, visits, i);
  }

  lemma TraceGrows<V(!new)>(input: V, visits: seq<Visit<V>>, i: nat)
    requires i < |visits|
    ensures |Trace(input, visits, i + 1)| == |Trace(input, visits, i)| + |visits[i].events|
  {
  }

  /**
   Replay simulates the original: the plan read from the trace of any completed run
   drives a run that calls no executor, visits the same nodes in the same order and ends
   with the same result, whose recorded form is the plan's expected result.
   */
  lemma ReplaySimulates<V(!new)>(
    w: Workflow<V>, input: V, states: seq<Run<V>>, visits: seq<Visit<V>>,
    workflow: string, bundle: string, run: string, trace: string)
    requires IsHistory(w, input, states, visits) && states[|visits|].result.Some? && ExecutorsNamed(w)
    ensures var prepared := Prepared(Envelopes(Trace(input, visits, |visits|), workflow, bundle, run, trace), workflow, bundle);
            && prepared.Success?
            && var plan := prepared.value;
               var result := states[|visits|].result.value;
               && Replayed(w, plan.input, plan.outcomes) == (Visited(states, 0), Completed(result))
               && plan.expected == Some(Final(result))
  {
    TraceIsAccepted(w, input, states, visits, workflow, bundle, run, trace);
    ReplayDrives(w, input, states, visits);
  }

  lemma ReplayDrives<V(!new)>(w: Workflow<V>, input: V, states: seq<Run<V>>, visits: seq<Visit<V>>)
    requires IsHistory(w, input, states, visits) && states[|visits|].result.Some? && ExecutorsNamed(w)
    ensures Replayed(w, input, Remaining(Owns(w, states, visits), 0)) ==
            (Visited(states, 0), Completed(states[|visits|].result.value))
  {
    var owns := Owns(w, states, visits);
    var q := Queued(Remaining(owns, 0));
    RemainingIsRoot(owns, 0);
    forall n | n in w.nodes && w.nodes[n].kind == Executor
      ensures QueueAt(q, Key(ROOT, n)) == For(Remaining(owns, 0), n)
    {
      QueueIsRecordedOrder(Remaining(owns, 0), n);
    }
    forall i | 0 <= i < |visits|
      ensures Advances(Turns(w), Ready(w, input, visits, owns), states, i)
    {
      HistoryAdvances(w, input, states, visits, i);
    }
    StepsAreCounted(w, input, states, visits, |visits|);
    assert Supplied(w, owns, 0, q);
    assert Ready(w, input, visits, owns)(0, q, 1);
    DrivesThrough(Turns(w), Ready(w, input, visits, owns), states, |visits|, 0, q, 1, w.maxSteps, Completed(states[|visits|].result.value));
  }
}
