/**
 The drive loop of Run::execute_step (src/dage.cpp) for runs without human, subflow
 and parallel nodes: visiting a node, recording its result, choosing the outgoing
 edge, loop and hit counters, completion.

 What an executor returns is an input of each visit. Templates and conditions are
 functions of the visible run: the workflow input, outputs, error and state, without
 the run's identity, the error's attempt number and the effect records. A visit that
 ends the drive early (cancelled, timed out, effect blocked, store failure) leaves no
 step behind, so histories are made of completed visits.
 */
module DriveLoop {
  import opened Base
  import CycleValidator

  datatype Fault = Fault(category: string, code: string, message: string, retryable: bool)

  datatype Outcome<V> = Ok(value: V) | Err(fault: Fault)

  datatype Kind = Executor | Plain | End

  datatype Loop = Loop(id: Option<string>, maxIterations: int, onExhausted: string)

  datatype Edge = Edge(target: string, loop: Option<Loop>, maxHits: nat)

  datatype Node = Node(kind: Kind, executor: string, enabled: bool, next: seq<Edge>, onError: seq<Edge>)

  datatype ErrorView = ErrorView(fault: Fault, node: string)

  /** What templates and conditions can see; an output is None when the node was visited without success. */
  datatype View<V> = View(input: V, outputs: map<string, Option<V>>, error: Option<ErrorView>, state: map<string, V>)

  /** One outgoing edge of a finished node: the node, whether it succeeded, the edge's index. */
  datatype Exit = Exit(node: string, success: bool, index: nat)

  datatype Workflow<!V> = Workflow(
    entry: string, nodes: map<string, Node>, maxSteps: nat, maxEvents: nat,
    resolve: (string, View<V>) -> V,
    matches: (Exit, V, View<V>) -> bool,
    assign: (Exit, V, View<V>) -> map<string, V>,
    fits: V -> bool,
    within: View<V> -> bool)

  datatype Run<V> = Run(
    current: string, step: nat, view: View<V>, hits: map<string, nat>, loops: map<string, nat>,
    result: Option<Outcome<V>>)

  const MAX_OUTPUT_BYTES := Fault("resource_limit", "MAX_OUTPUT_BYTES", "Node output exceeds the run output quota.", false)
  const LOOP_EXHAUSTED := Fault("resource_limit", "LOOP_EXHAUSTED", "Loop exhausted.", false)
  const MAX_HITS := Fault("resource_limit", "MAX_HITS", "Edge max_hits exceeded.", false)

  function Initial<V>(w: Workflow<V>, input: V): Run<V> {
    Run(w.entry, 0, View(input, map[], None, map[]), map[], map[], None)
  }

  // ---------------------------------------------------------------- one visit

  /** Reading the node's own output inserts an empty one. */
  function Touch<V>(view: View<V>, node: string): View<V> {
    if node in view.outputs then view else view.(outputs := view.outputs[node := None])
  }

  function NodeInput<V>(w: Workflow<V>, s: Run<V>): V {
    w.resolve(s.current, Touch(s.view, s.current))
  }

  /** The output quota turns a large success into a failure. */
  function Settle<V>(w: Workflow<V>, raw: Outcome<V>): Outcome<V> {
    if raw.Ok? && !w.fits(raw.value) then Err(MAX_OUTPUT_BYTES) else raw
  }

  function Record<V>(view: View<V>, node: string, outcome: Outcome<V>): View<V> {
    var touched := Touch(view, node);
    match outcome
    case Ok(v) => touched.(outputs := touched.outputs[node := Some(v)], error := None)
    case Err(fault) => touched.(error := Some(ErrorView(fault, node)))
  }

  function EdgesOf(n: Node, success: bool): seq<Edge> {
    if success then n.next else n.onError
  }

  predicate Open<V>(w: Workflow<V>, e: Edge) {
    e.target in w.nodes && w.nodes[e.target].enabled
  }

  /** Index of the first edge from `i` whose target is enabled and whose condition holds; |edges| when there is none. */
  function FirstMatch<V>(w: Workflow<V>, node: string, success: bool, edges: seq<Edge>, input: V, view: View<V>, i: nat): (k: nat)
    requires i <= |edges|
    ensures i <= k <= |edges|
    ensures k < |edges| ==> Open(w, edges[k]) && w.matches(Exit(node, success, k), input, view)
    ensures forall j :: i <= j < k ==> !(Open(w, edges[j]) && w.matches(Exit(node, success, j), input, view))
    decreases |edges| - i
  {
    if i == |edges| || (Open(w, edges[i]) && w.matches(Exit(node, success, i), input, view)) then i
    else FirstMatch(w, node, success, edges, input, view, i + 1)
  }

  function Count(counters: map<string, nat>, key: string): nat {
    if key in counters then counters[key] else 0
  }

  /** Where the chosen edge leads, the counters after it, and the failure it would report if the run ended here. */
  datatype Hop = Hop(next: string, hits: map<string, nat>, loops: map<string, nat>, fault: Option<Fault>)

  function LoopId(e: Edge, node: string): string
    requires e.loop.Some?
  {
    if e.loop.value.id.Some? then e.loop.value.id.value else node + "_" + e.target
  }

  function TakeLoop(e: Edge, node: string, loops: map<string, nat>): (string, map<string, nat>, Option<Fault>) {
    match e.loop
    case None => (e.target, loops, None)
    case Some(l) =>
      var id := LoopId(e, node);
      var counted := loops[id := Count(loops, id) + 1];
      if counted[id] > l.maxIterations then
        (l.onExhausted, counted, if l.onExhausted == "" then Some(LOOP_EXHAUSTED) else None)
      else (e.target, counted, None)
  }

  function TakeEdge(e: Edge, node: string, hits: map<string, nat>, loops: map<string, nat>): Hop {
    var (next, counted, fault) := TakeLoop(e, node, loops);
    if e.maxHits > 0 then
      var key := node + "->" + next;
      var hit := hits[key := Count(hits, key) + 1];
      Hop(next, hit, counted, if hit[key] > e.maxHits then Some(MAX_HITS) else fault)
    else Hop(next, hits, counted, fault)
  }

  predicate Ends<V>(w: Workflow<V>, s: Run<V>, settled: Outcome<V>)
    requires s.current in w.nodes
  {
    w.nodes[s.current].kind == End && settled.Ok?
  }

  /** The edge a finished node is left by; the number of edges when it is left for good. */
  function Choice<V>(w: Workflow<V>, s: Run<V>, settled: Outcome<V>): (k: nat)
    requires s.current in w.nodes
    ensures k <= |EdgesOf(w.nodes[s.current], settled.Ok?)|
  {
    if Ends(w, s, settled) then |EdgesOf(w.nodes[s.current], settled.Ok?)|
    else FirstMatch(w, s.current, settled.Ok?, EdgesOf(w.nodes[s.current], settled.Ok?), NodeInput(w, s),
               Record(s.view, s.current, settled), 0)
  }

  /** The run after leaving the finished node by edge `k`, or for good when there is no such edge. */
  function Leave<V>(w: Workflow<V>, s: Run<V>, settled: Outcome<V>, k: nat): Run<V>
    requires s.current in w.nodes
  {
    var view := Record(s.view, s.current, settled);
    var edges := EdgesOf(w.nodes[s.current], settled.Ok?);
    if k >= |edges| then s.(current := "", view := view)
    else
      var hop := TakeEdge(edges[k], s.current, s.hits, s.loops);
      var state := w.assign(Exit(s.current, settled.Ok?, k), NodeInput(w, s), view);
      s.(current := hop.next, view := view.(state := state), hits := hop.hits, loops := hop.loops)
  }

  /** The result the run reports if it ends after leaving by edge `k`. */
  function Public<V>(w: Workflow<V>, s: Run<V>, settled: Outcome<V>, k: nat): Outcome<V>
    requires s.current in w.nodes
  {
    var edges := EdgesOf(w.nodes[s.current], settled.Ok?);
    if Ends(w, s, settled) then Ok(NodeInput(w, s))
    else if k >= |edges| then settled
    else
      var hop := TakeEdge(edges[k], s.current, s.hits, s.loops);
      if hop.fault.Some? then Err(hop.fault.value) else settled
  }

  /** The run after a whole visit whose executor, if any, returned `raw`. */
  function After<V>(w: Workflow<V>, s: Run<V>, raw: Outcome<V>): Run<V>
    requires s.current in w.nodes
  {
    var settled := Settle(w, raw);
    var k := Choice(w, s, settled);
    var left := Leave(w, s, settled, k);
    left.(step := s.step + 1, result := if left.current == "" then Some(Public(w, s, settled, k)) else None)
  }

  /** The checks at the head of the loop, given the number of events emitted so far. */
  predicate CanVisit<V>(w: Workflow<V>, s: Run<V>, events: nat) {
    && s.result.None? && s.current in w.nodes
    && (w.maxEvents == 0 || events < w.maxEvents)
    && s.step + 1 <= w.maxSteps
  }

  /** A node without executor returns its input. */
  predicate Possible<V(==)>(w: Workflow<V>, s: Run<V>, raw: Outcome<V>)
    requires s.current in w.nodes
  {
    w.nodes[s.current].kind != Executor ==> raw == Ok(NodeInput(w, s))
  }

  // ---------------------------------------------------------------- what a visit does

  /** What is recorded of a visit: the output of a success that fits, or the fault and the node it came from. */
  lemma OutcomeIsRecorded<V(!new)>(w: Workflow<V>, s: Run<V>, raw: Outcome<V>)
    requires s.current in w.nodes
    ensures var t := After(w, s, raw).view;
            && t.input == s.view.input
            && (raw.Ok? && w.fits(raw.value) ==>
                  t.outputs == s.view.outputs[s.current := Some(raw.value)] && t.error.None?)
            && (raw.Ok? && !w.fits(raw.value) ==> t.error == Some(ErrorView(MAX_OUTPUT_BYTES, s.current)))
            && (raw.Err? ==> t.error == Some(ErrorView(raw.fault, s.current)))
            && (raw.Err? || !w.fits(raw.value) ==>
                  t.outputs == if s.current in s.view.outputs then s.view.outputs else s.view.outputs[s.current := None])
  {
  }

  /** The input a node is given, and what its edges see: the view with this visit recorded and the state still unchanged. */
  function InputAt<V>(w: Workflow<V>, s: Run<V>): V {
    w.resolve(s.current,
      if s.current in s.view.outputs then s.view else s.view.(outputs := s.view.outputs[s.current := None]))
  }

  function ViewAt<V>(w: Workflow<V>, s: Run<V>, raw: Outcome<V>): View<V>
    requires s.current in w.nodes
  {
    After(w, s, raw).view.(state := s.view.state)
  }

  /** Edge `k` has an enabled target and a true condition. */
  predicate Usable<V>(w: Workflow<V>, s: Run<V>, raw: Outcome<V>, edges: seq<Edge>, success: bool, k: nat)
    requires s.current in w.nodes && k < |edges|
  {
    && edges[k].target in w.nodes && w.nodes[edges[k].target].enabled
    && w.matches(Exit(s.current, success, k), InputAt(w, s), ViewAt(w, s, raw))
  }

  /**
   The run that followed edge `e`, the k-th of its list: the counter of its loop, named by
   its id or by both ends, decides between target and on_exhausted; the hit counter is that of
   the way taken; a way that leads nowhere ends the run.
   */
  ghost predicate Follows<V(!new)>(
    w: Workflow<V>, s: Run<V>, raw: Outcome<V>, e: Edge, success: bool, k: nat, settled: Outcome<V>)
    requires s.current in w.nodes
  {
    var t := After(w, s, raw);
    var id := match e.loop case Some(Loop(Some(name), _, _)) => name case _ => s.current + "_" + e.target;
    var usedUp := e.loop.Some? && Count(s.loops, id) + 1 > e.loop.value.maxIterations;
    var way := s.current + "->" + t.current;
    && t.current == (if usedUp then e.loop.value.onExhausted else e.target)
    && t.loops == (if e.loop.Some? then s.loops[id := Count(s.loops, id) + 1] else s.loops)
    && t.hits == (if e.maxHits > 0 then s.hits[way := Count(s.hits, way) + 1] else s.hits)
    && t.view.state == w.assign(Exit(s.current, success, k), InputAt(w, s), ViewAt(w, s, raw))
    && (t.current != "" ==> t.result.None?)
    && (t.current == "" ==>
          t.result == Some(if e.maxHits > 0 && Count(s.hits, way) + 1 > e.maxHits then Err(MAX_HITS)
                           else if usedUp then Err(LOOP_EXHAUSTED) else settled))
  }

  /** The run follows the first usable edge of the list, and without one it ends with `settled`. */
  ghost predicate LeavesBy<V(!new)>(
    w: Workflow<V>, s: Run<V>, raw: Outcome<V>, edges: seq<Edge>, success: bool, settled: Outcome<V>)
    requires s.current in w.nodes
  {
    var t := After(w, s, raw);
    && (forall k :: 0 <= k < |edges| && Usable(w, s, raw, edges, success, k)
                    && (forall j :: 0 <= j < k ==> !Usable(w, s, raw, edges, success, j)) ==>
                      Follows(w, s, raw, edges[k], success, k, settled))
    && ((forall k :: 0 <= k < |edges| ==> !Usable(w, s, raw, edges, success, k)) ==>
          t.current == "" && t.result == Some(settled) && t.loops == s.loops && t.hits == s.hits
          && t.view.state == s.view.state)
  }

  /** The edge that is chosen is the first usable one. */
  lemma ChoiceIsFirstUsable<V(!new)>(w: Workflow<V>, s: Run<V>, raw: Outcome<V>, edges: seq<Edge>, success: bool, k: nat)
    requires s.current in w.nodes && !Ends(w, s, Settle(w, raw)) && success == Settle(w, raw).Ok?
    requires edges == EdgesOf(w.nodes[s.current], success) && k < |edges|
    ensures k < Choice(w, s, Settle(w, raw)) ==> !Usable(w, s, raw, edges, success, k)
    ensures k == Choice(w, s, Settle(w, raw)) ==> Usable(w, s, raw, edges, success, k)
  {
    assert InputAt(w, s) == NodeInput(w, s);
    assert ViewAt(w, s, raw) == Record(s.view, s.current, Settle(w, raw));
    assert Open(w, edges[k]) <==> edges[k].target in w.nodes && w.nodes[edges[k].target].enabled;
  }

  lemma FollowsChosen<V(!new)>(w: Workflow<V>, s: Run<V>, raw: Outcome<V>, k: nat)
    requires s.current in w.nodes && !Ends(w, s, Settle(w, raw)) && k == Choice(w, s, Settle(w, raw))
    requires k < |EdgesOf(w.nodes[s.current], Settle(w, raw).Ok?)|
    ensures Follows(w, s, raw, EdgesOf(w.nodes[s.current], Settle(w, raw).Ok?)[k], Settle(w, raw).Ok?, k, Settle(w, raw))
  {
    assert InputAt(w, s) == NodeInput(w, s);
    assert ViewAt(w, s, raw) == Record(s.view, s.current, Settle(w, raw));
  }

  lemma LeavesByItsEdges<V(!new)>(w: Workflow<V>, s: Run<V>, raw: Outcome<V>)
    requires s.current in w.nodes && !Ends(w, s, Settle(w, raw))
    ensures LeavesBy(w, s, raw, EdgesOf(w.nodes[s.current], Settle(w, raw).Ok?), Settle(w, raw).Ok?, Settle(w, raw))
  {
    var success := Settle(w, raw).Ok?;
    var edges := EdgesOf(w.nodes[s.current], success);
    var chosen := Choice(w, s, Settle(w, raw));
    forall k | 0 <= k < |edges|
      ensures k < chosen ==> !Usable(w, s, raw, edges, success, k)
      ensures k == chosen ==> Usable(w, s, raw, edges, success, k) && Follows(w, s, raw, edges[k], success, k, Settle(w, raw))
    {
      ChoiceIsFirstUsable(w, s, raw, edges, success, k);
      if k == chosen {
        FollowsChosen(w, s, raw, k);
      }
    }
  }

  /** A failed node, or one whose output is too large, is left by its on_error edges. */
  lemma FailureFollowsOnError<V(!new)>(w: Workflow<V>, s: Run<V>, raw: Outcome<V>)
    requires s.current in w.nodes && (raw.Err? || !w.fits(raw.value))
    ensures LeavesBy(w, s, raw, w.nodes[s.current].onError, false, if raw.Err? then raw else Err(MAX_OUTPUT_BYTES))
  {
    LeavesByItsEdges(w, s, raw);
  }

  /** A node that succeeded is left by its next edges, and an end node for good, with its input as the result. */
  lemma SuccessFollowsNext<V(!new)>(w: Workflow<V>, s: Run<V>, raw: Outcome<V>)
    requires s.current in w.nodes && raw.Ok? && w.fits(raw.value)
    ensures w.nodes[s.current].kind != End ==> LeavesBy(w, s, raw, w.nodes[s.current].next, true, raw)
    ensures w.nodes[s.current].kind == End ==>
              After(w, s, raw).current == "" && After(w, s, raw).result == Some(Ok(InputAt(w, s)))
  {
    if w.nodes[s.current].kind != End {
      LeavesByItsEdges(w, s, raw);
    }
  }

  // ---------------------------------------------------------------- events

  datatype Body<V> =
    | RunStarted(input: Option<V>)
    | NodeSucceeded(node: string, executor: string, value: Option<V>)
    | NodeFailed(node: string, executor: string, fault: Option<Fault>)
    | RunCompleted(outcome: Option<Outcome<V>>)
    | Progress(name: string)

  function Repeat<V>(name: string, n: nat): (bodies: seq<Body<V>>)
    ensures |bodies| == n && forall i :: 0 <= i < n ==> bodies[i] == Progress(name)
  {
    if n == 0 then [] else [Progress(name)] + Repeat(name, n - 1)
  }

  /** How many edges are evaluated before one is taken: the enabled ones up to it. */
  function Evaluated<V>(w: Workflow<V>, edges: seq<Edge>): nat {
    if edges == [] then 0
    else Evaluated(w, edges[..|edges| - 1]) + if Open(w, edges[|edges| - 1]) then 1 else 0
  }

  function ResultEvent<V>(node: string, n: Node, settled: Outcome<V>): Body<V> {
    match settled
    case Ok(v) => NodeSucceeded(node, n.executor, Some(v))
    case Err(fault) => NodeFailed(node, n.executor, Some(fault))
  }

  /** The evaluations up to edge `k` and its selection. */
  function EdgeEvents<V>(w: Workflow<V>, edges: seq<Edge>, k: nat): seq<Body<V>> {
    if k >= |edges| then Repeat("edge_evaluated", Evaluated(w, edges))
    else Repeat("edge_evaluated", Evaluated(w, edges[..k + 1])) + [Progress("edge_selected")]
  }

  function LeaveEvents<V>(w: Workflow<V>, s: Run<V>, settled: Outcome<V>): seq<Body<V>>
    requires s.current in w.nodes
  {
    if Ends(w, s, settled) then []
    else EdgeEvents(w, EdgesOf(w.nodes[s.current], settled.Ok?), Choice(w, s, settled))
  }

  /** The events of one visit; `extra` counts lease and retry events. */
  function VisitEvents<V>(w: Workflow<V>, s: Run<V>, raw: Outcome<V>, extra: nat): seq<Body<V>>
    requires s.current in w.nodes
  {
    var settled := Settle(w, raw);
    [Progress("node_started"), Progress("node_input_resolved")] + Repeat("executor", extra)
    + [ResultEvent(s.current, w.nodes[s.current], settled)] + LeaveEvents(w, s, settled)
    + (var after := After(w, s, raw).result; if after.Some? then [RunCompleted(after)] else [])
  }

  lemma CountEvents<V(!new)>(w: Workflow<V>, s: Run<V>, raw: Outcome<V>)
    requires s.current in w.nodes
    ensures |VisitEvents(w, s, raw, 0)| ==
            3 + |LeaveEvents(w, s, Settle(w, raw))| + if After(w, s, raw).result.Some? then 1 else 0
  {
  }

  /** The first `n` indices whose edge has an enabled target. */
  ghost function EnabledBelow<V>(w: Workflow<V>, edges: seq<Edge>, n: nat): set<nat> {
    set i: nat | i < n && i < |edges| && Open(w, edges[i])
  }

  lemma {:induction false} EvaluatedCounts<V(!new)>(w: Workflow<V>, edges: seq<Edge>, n: nat)
    requires n <= |edges|
    ensures Evaluated(w, edges[..n]) == |EnabledBelow(w, edges, n)|
  {
    if n == 0 {
      assert EnabledBelow(w, edges, 0) == {};
    } else {
      EvaluatedCounts(w, edges, n - 1);
      assert edges[..n][..n - 1] == edges[..n - 1];
      OneMoreEnabled(w, edges, n);
    }
  }

  lemma OneMoreEnabled<V(!new)>(w: Workflow<V>, edges: seq<Edge>, n: nat)
    requires 0 < n <= |edges|
    ensures |EnabledBelow(w, edges, n)| == |EnabledBelow(w, edges, n - 1)| + if Open(w, edges[n - 1]) then 1 else 0
  {
    if Open(w, edges[n - 1]) {
      assert EnabledBelow(w, edges, n) == EnabledBelow(w, edges, n - 1) + {n - 1};
    } else {
      assert EnabledBelow(w, edges, n) == EnabledBelow(w, edges, n - 1);
    }
  }

  /** The events of leaving a node: one evaluation for each enabled edge that was tried, and one selection if one was taken. */
  lemma EdgeEventsMean<V(!new)>(w: Workflow<V>, edges: seq<Edge>, k: nat)
    ensures var events: seq<Body<V>> := EdgeEvents(w, edges, k);
            var tried := |EnabledBelow(w, edges, k + 1)|;
            && |events| == tried + (if k < |edges| then 1 else 0)
            && (forall i :: 0 <= i < tried ==> events[i] == Progress("edge_evaluated"))
            && (k < |edges| ==> events[tried] == Progress("edge_selected"))
  {
    if k < |edges| {
      EvaluatedCounts(w, edges, k + 1);
    } else {
      EvaluatedCounts(w, edges, |edges|);
      assert edges[..|edges|] == edges && EnabledBelow(w, edges, k + 1) == EnabledBelow(w, edges, |edges|);
    }
  }

  /** The events of a visit, in order: start, input, what the executor caused, the result, the edges, and completion. */
  lemma VisitEventsMean<V(!new)>(w: Workflow<V>, s: Run<V>, raw: Outcome<V>, extra: nat)
    requires s.current in w.nodes
    ensures var events := VisitEvents(w, s, raw, extra);
            var result := After(w, s, raw).result;
            && |events| >= extra + 3
            && events[0] == Progress("node_started") && events[1] == Progress("node_input_resolved")
            && (raw.Ok? && w.fits(raw.value) ==>
                  events[extra + 2] == NodeSucceeded(s.current, w.nodes[s.current].executor, Some(raw.value)))
            && (raw.Err? ==> events[extra + 2] == NodeFailed(s.current, w.nodes[s.current].executor, Some(raw.fault)))
            && (raw.Ok? && !w.fits(raw.value) ==>
                  events[extra + 2] == NodeFailed(s.current, w.nodes[s.current].executor, Some(MAX_OUTPUT_BYTES)))
            && (result.Some? ==> events[|events| - 1] == RunCompleted(result))
  {
  }

  /** The edge loop: disabled targets are skipped without an event. */
  method FindEdge<V>(w: Workflow<V>, node: string, success: bool, edges: seq<Edge>, input: V, view: View<V>)
    returns (k: nat, events: nat)
    ensures k == FirstMatch(w, node, success, edges, input, view, 0)
    ensures events == |EdgeEvents(w, edges, k)|
  {
    k, events := 0, 0;
    while k < |edges|
      invariant k <= |edges| && events == Evaluated(w, edges[..k])
      invariant FirstMatch(w, node, success, edges, input, view, k) == FirstMatch(w, node, success, edges, input, view, 0)
    {
      assert edges[..k + 1][..k] == edges[..k];
      if Open(w, edges[k]) {
        events := events + 1;
        if w.matches(Exit(node, success, k), input, view) {
          events := events + 1;
          return;
        }
      }
      k := k + 1;
    }
    assert edges[..k] == edges;
  }

  // ---------------------------------------------------------------- the run object

  /** The fields of a run that the drive loop updates in place. */
  class RunState<V(!new)> {
    const workflow: Workflow<V>
    var current: string
    var step: nat
    var view: View<V>
    var hits: map<string, nat>
    var loops: map<string, nat>
    var result: Option<Outcome<V>>
    var events: nat

    ghost function Value(): Run<V>
      reads this
    {
      Run(current, step, view, hits, loops, result)
    }

    /** A run that has just emitted run_started. */
    constructor (workflow: Workflow<V>, input: V)
      ensures this.workflow == workflow && Value() == Initial(workflow, input) && events == 1
    {
      this.workflow := workflow;
      current, step, view := workflow.entry, 0, View(input, map[], None, map[]);
      hits, loops, result, events := map[], map[], None, 1;
    }

    /** The rest of a visit once its raw result is known: record it, pick an edge, move on or complete. */
    method FinishVisit(raw: Outcome<V>)
      requires current in workflow.nodes && result.None?
      modifies this
      ensures Value() == After(workflow, old(Value()), raw)
      ensures events == old(events) + |VisitEvents(workflow, old(Value()), raw, 0)|
    {
      ghost var s := Value();
      var settled := Settle(workflow, raw);
      var input := workflow.resolve(current, Touch(view, current));
      step, view, events := step + 1, Record(view, current, settled), events + 3;
      var public := Depart(s, settled, input);
      if current == "" {
        result, events := Some(public), events + 1;
      }
      CountEvents(workflow, s, raw);
    }

    /** Leaves the finished node, for good when it is an end that succeeded; `s` is the run as the visit found it. */
    method Depart(ghost s: Run<V>, settled: Outcome<V>, input: V) returns (public: Outcome<V>)
      requires current in workflow.nodes && s == Run(current, s.step, s.view, hits, loops, result)
      requires view == Record(s.view, current, settled) && input == NodeInput(workflow, s)
      modifies this`current, this`view, this`hits, this`loops, this`events
      ensures Value() == Leave(workflow, s, settled, Choice(workflow, s, settled)).(step := step)
      ensures public == Public(workflow, s, settled, Choice(workflow, s, settled))
      ensures events == old(events) + |LeaveEvents(workflow, s, settled)|
    {
      if workflow.nodes[current].kind == End && settled.Ok? {
        current := "";
        return Ok(input);
      }
      public := MoveOn(s, settled, input);
    }

    /** Leaves the finished node by the first edge that matches; `s` is the run as the visit found it. */
    method MoveOn(ghost s: Run<V>, settled: Outcome<V>, input: V) returns (public: Outcome<V>)
      requires current in workflow.nodes && s == Run(current, s.step, s.view, hits, loops, result)
      requires view == Record(s.view, current, settled) && input == NodeInput(workflow, s) && !Ends(workflow, s, settled)
      modifies this`current, this`view, this`hits, this`loops, this`events
      ensures Value() == Leave(workflow, s, settled, Choice(workflow, s, settled)).(step := step)
      ensures public == Public(workflow, s, settled, Choice(workflow, s, settled))
      ensures events == old(events) + |LeaveEvents(workflow, s, settled)|
    {
      var edges := EdgesOf(workflow.nodes[current], settled.Ok?);
      var k, count := FindEdge(workflow, current, settled.Ok?, edges, input, view);
      events := events + count;
      public := TakeChosen(s, settled, input, edges, k);
    }

    method TakeChosen(ghost s: Run<V>, settled: Outcome<V>, input: V, edges: seq<Edge>, k: nat) returns (public: Outcome<V>)
      requires current in workflow.nodes && s == Run(current, s.step, s.view, hits, loops, result)
      requires view == Record(s.view, current, settled) && input == NodeInput(workflow, s) && !Ends(workflow, s, settled)
      requires edges == EdgesOf(workflow.nodes[current], settled.Ok?)
      modifies this`current, this`view, this`hits, this`loops
      ensures Value() == Leave(workflow, s, settled, k).(step := step)
      ensures public == Public(workflow, s, settled, k)
    {
      if k >= |edges| {
        current := "";
        return settled;
      }
      var hop := TakeEdge(edges[k], current, hits, loops);
      view := view.(state := workflow.assign(Exit(current, settled.Ok?, k), input, view));
      hits, loops, current := hop.hits, hop.loops, hop.next;
      public := if hop.fault.Some? then Err(hop.fault.value) else settled;
    }
  }

  // ---------------------------------------------------------------- histories

  /** One completed visit: what the executor returned, how many extra events it caused, and all its events. */
  datatype Visit<V> = Visit(raw: Outcome<V>, extra: nat, events: seq<Body<V>>)

  /** The events up to visit `i`. */
  function Trace<V>(input: V, visits: seq<Visit<V>>, i: nat): seq<Body<V>>
    requires i <= |visits|
  {
    if i == 0 then [RunStarted(Some(input))] else Trace(input, visits, i - 1) + visits[i - 1].events
  }

  ghost predicate VisitsNodes<V(!new)>(w: Workflow<V>, states: seq<Run<V>>, visits: seq<Visit<V>>) {
    |states| == |visits| + 1 && forall k :: 0 <= k < |visits| ==> states[k].current in w.nodes
  }

  /** The run in `s`, with `count` events emitted, makes visit `v` and becomes `t`. */
  predicate IsVisit<V(==)>(w: Workflow<V>, s: Run<V>, count: nat, v: Visit<V>, t: Run<V>)
    requires s.current in w.nodes
  {
    && CanVisit(w, s, count) && Possible(w, s, v.raw)
    && w.within(Record(s.view, s.current, Settle(w, v.raw)))
    && v.events == VisitEvents(w, s, v.raw, v.extra)
    && t == After(w, s, v.raw)
  }

  ghost predicate IsStep<V(!new)>(w: Workflow<V>, input: V, states: seq<Run<V>>, visits: seq<Visit<V>>, i: nat)
    requires VisitsNodes(w, states, visits) && i < |visits|
  {
    IsVisit(w, states[i], |Trace(input, visits, i)|, visits[i], states[i + 1])
  }

  ghost predicate IsHistory<V(!new)>(w: Workflow<V>, input: V, states: seq<Run<V>>, visits: seq<Visit<V>>) {
    && VisitsNodes(w, states, visits) && states[0] == Initial(w, input)
    && forall i :: 0 <= i < |visits| ==> IsStep(w, input, states, visits, i)
  }

  /** The nodes visited from visit `i` on. */
  function Visited<V>(states: seq<Run<V>>, i: nat): seq<string>
    requires i < |states|
  {
    seq(|states| - 1 - i, k requires 0 <= k < |states| - 1 - i => states[i + k].current)
  }

  /** A history takes at most max_steps visits. */
  lemma {:induction false} StepsAreCounted<V(!new)>(w: Workflow<V>, input: V, states: seq<Run<V>>, visits: seq<Visit<V>>, i: nat)
    requires IsHistory(w, input, states, visits) && i <= |visits|
    ensures states[i].step == i <= w.maxSteps
  {
    if i > 0 {
      StepsAreCounted(w, input, states, visits, i - 1);
      assert IsStep(w, input, states, visits, i - 1);
    }
  }

  // ---------------------------------------------------------------- loops and hits

  /** The visit leaves by an edge of loop `id`. */
  predicate Leaves<V>(w: Workflow<V>, s: Run<V>, raw: Outcome<V>, id: string)
    requires s.current in w.nodes
  {
    var edges := EdgesOf(w.nodes[s.current], Settle(w, raw).Ok?);
    var k := Choice(w, s, Settle(w, raw));
    k < |edges| && edges[k].loop.Some? && LoopId(edges[k], s.current) == id
  }

  /** The edge a visit is left by. */
  function ChosenEdge<V>(w: Workflow<V>, s: Run<V>, raw: Outcome<V>): Edge
    requires s.current in w.nodes && Choice(w, s, Settle(w, raw)) < |EdgesOf(w.nodes[s.current], Settle(w, raw).Ok?)|
  {
    EdgesOf(w.nodes[s.current], Settle(w, raw).Ok?)[Choice(w, s, Settle(w, raw))]
  }

  /** The visit leaves by an edge of loop `id` and arrives at that edge's target. */
  predicate Passes<V>(w: Workflow<V>, s: Run<V>, raw: Outcome<V>, id: string)
    requires s.current in w.nodes
  {
    Leaves(w, s, raw, id) && After(w, s, raw).current == ChosenEdge(w, s, raw).target
  }

  /** How many numbers below `i` satisfy `p`. */
  ghost function Tally(p: nat -> bool, i: nat): nat {
    if i == 0 then 0 else Tally(p, i - 1) + if p(i - 1) then 1 else 0
  }

  /** How many of the first `i` visits pass round the loop. */
  ghost function Rounds<V(!new)>(w: Workflow<V>, states: seq<Run<V>>, visits: seq<Visit<V>>, id: string, i: nat): nat
    requires VisitsNodes(w, states, visits) && i <= |visits|
  {
    Tally((k: nat) => k < |visits| && Passes(w, states[k], visits[k].raw, id), i)
  }

  ghost predicate LoopEnds(edges: seq<Edge>, node: string, id: string, limit: nat) {
    forall k :: 0 <= k < |edges| && edges[k].loop.Some? && LoopId(edges[k], node) == id ==>
                  edges[k].loop.value.maxIterations <= limit && edges[k].loop.value.onExhausted != edges[k].target
  }

  /** Every edge of loop `id` allows at most `limit` iterations, and leads elsewhere when they are used up. */
  ghost predicate Limited<V>(w: Workflow<V>, id: string, limit: nat) {
    forall n :: n in w.nodes ==> LoopEnds(w.nodes[n].next, n, id, limit) && LoopEnds(w.nodes[n].onError, n, id, limit)
  }

  /** A visit that leaves by a loop's edge reaches its target exactly if iterations remain or on_exhausted names the target. */
  lemma PassesExactly<V(!new)>(w: Workflow<V>, s: Run<V>, raw: Outcome<V>, id: string)
    requires s.current in w.nodes && Leaves(w, s, raw, id)
    ensures var l := ChosenEdge(w, s, raw).loop.value;
            Passes(w, s, raw, id) <==>
              Count(s.loops, id) + 1 <= l.maxIterations || l.onExhausted == ChosenEdge(w, s, raw).target
    ensures Count(After(w, s, raw).loops, id) == Count(s.loops, id) + 1
  {
  }

  lemma PassIsCounted<V(!new)>(w: Workflow<V>, s: Run<V>, raw: Outcome<V>, id: string, limit: nat)
    requires s.current in w.nodes && Limited(w, id, limit)
    ensures Count(After(w, s, raw).loops, id) >= Count(s.loops, id)
    ensures Passes(w, s, raw, id) ==> Count(After(w, s, raw).loops, id) == Count(s.loops, id) + 1 <= limit
  {
    assert LoopEnds(w.nodes[s.current].next, s.current, id, limit);
    assert LoopEnds(w.nodes[s.current].onError, s.current, id, limit);
    if Leaves(w, s, raw, id) {
      PassesExactly(w, s, raw, id);
    }
  }

  /** At `k` the counter does not fall, and rises within the limit when `k` is tallied. */
  ghost predicate Rises(p: nat -> bool, counter: nat -> nat, limit: nat, k: nat) {
    counter(k + 1) >= counter(k) && (p(k) ==> counter(k) < counter(k + 1) <= limit)
  }

  /** A tally whose every member raises a counter, never beyond the limit, stays within it. */
  lemma {:induction false} TallyIsBounded(p: nat -> bool, counter: nat -> nat, limit: nat, i: nat)
    requires forall k :: 0 <= k < i ==> Rises(p, counter, limit, k)
    ensures Tally(p, i) <= counter(i) && Tally(p, i) <= limit
  {
    if i > 0 {
      TallyIsBounded(p, counter, limit, i - 1);
      assert Rises(p, counter, limit, i - 1);
    }
  }

  lemma {:induction false} TallyOfAll(p: nat -> bool, i: nat)
    requires forall k :: 0 <= k < i ==> p(k)
    ensures Tally(p, i) == i
  {
    if i > 0 {
      TallyOfAll(p, i - 1);
      assert p(i - 1);
    }
  }

  lemma StepIsCounted<V(!new)>(
    w: Workflow<V>, input: V, states: seq<Run<V>>, visits: seq<Visit<V>>, id: string, limit: nat, i: nat)
    requires IsHistory(w, input, states, visits) && Limited(w, id, limit) && i < |visits|
    ensures Count(states[i + 1].loops, id) >= Count(states[i].loops, id)
    ensures Passes(w, states[i], visits[i].raw, id) ==>
              Count(states[i + 1].loops, id) == Count(states[i].loops, id) + 1 <= limit
  {
    assert IsStep(w, input, states, visits, i);
    PassIsCounted(w, states[i], visits[i].raw, id, limit);
  }

  /**
   Over a whole run the edges of a loop lead to their targets at most max_iterations
   times, provided none of them names its own target in on_exhausted.
   */
  lemma LoopsAreBounded<V(!new)>(
    w: Workflow<V>, input: V, states: seq<Run<V>>, visits: seq<Visit<V>>, id: string, limit: nat)
    requires IsHistory(w, input, states, visits) && Limited(w, id, limit)
    ensures Rounds(w, states, visits, id, |visits|) <= limit
  {
    var p := (k: nat) => k < |visits| && Passes(w, states[k], visits[k].raw, id);
    var counter := (k: nat) => if k < |states| then Count(states[k].loops, id) else 0;
    forall k | 0 <= k < |visits|
      ensures Rises(p, counter, limit, k)
    {
      StepIsCounted(w, input, states, visits, id, limit, k);
    }
    TallyIsBounded(p, counter, limit, |visits|);
  }

  /** When a run ends with MAX_HITS, exactly: the edge's loop is used up, leads nowhere, and that way out was hit too often. */
  lemma MaxHitsIsReported<V(!new)>(w: Workflow<V>, s: Run<V>, raw: Outcome<V>)
    requires s.current in w.nodes && Settle(w, raw) != Err(MAX_HITS)
    ensures var k := Choice(w, s, Settle(w, raw));
            var edges := EdgesOf(w.nodes[s.current], Settle(w, raw).Ok?);
            After(w, s, raw).result == Some(Err(MAX_HITS)) <==>
              && k < |edges| && edges[k].maxHits > 0 && TakeLoop(edges[k], s.current, s.loops).0 == ""
              && Count(s.hits, s.current + "->") + 1 > edges[k].maxHits
  {
    assert s.current + "->" + "" == s.current + "->";
    assert |LOOP_EXHAUSTED.code| == 14 && |MAX_HITS.code| == 8;
  }

  // ---------------------------------------------------------------- accepted workflows

  function CycleEdges(edges: seq<Edge>): seq<CycleValidator.Edge> {
    seq(|edges|, i requires 0 <= i < |edges| =>
      CycleValidator.Edge(edges[i].target, edges[i].loop.Some?, edges[i].maxHits))
  }

  /** The graph the cycle check sees. */
  function GraphOf<V>(w: Workflow<V>): CycleValidator.Graph {
    map id | id in w.nodes :: CycleValidator.Node(CycleEdges(w.nodes[id].next), CycleEdges(w.nodes[id].onError))
  }

  ghost predicate Unbounded(edges: seq<Edge>) {
    forall i :: 0 <= i < |edges| ==> edges[i].loop.None? && edges[i].maxHits == 0
  }

  /** No edge declares a loop or a hit limit. */
  ghost predicate NoBounds<V>(w: Workflow<V>) {
    forall id :: id in w.nodes ==> Unbounded(w.nodes[id].next) && Unbounded(w.nodes[id].onError)
  }

  lemma VisitFollowsAnEdge<V(!new)>(w: Workflow<V>, s: Run<V>, raw: Outcome<V>)
    requires NoBounds(w) && s.current in w.nodes && After(w, s, raw).current in w.nodes && After(w, s, raw).result.None?
    ensures CycleValidator.FreeStep(GraphOf(w), s.current, After(w, s, raw).current)
  {
    var n := w.nodes[s.current];
    var settled := Settle(w, raw);
    var edges := EdgesOf(n, settled.Ok?);
    var k := Choice(w, s, settled);
    var e := CycleEdges(edges)[k];
    assert Unbounded(n.next) && Unbounded(n.onError);
    assert e.to == After(w, s, raw).current && !CycleValidator.Bounded(e);
    var out := CycleValidator.Out(GraphOf(w), s.current);
    assert out == CycleEdges(n.next) + CycleEdges(n.onError);
    if settled.Ok? {
      assert out[k] == e;
    } else {
      assert out[|n.next| + k] == e;
    }
  }

  lemma StepFollowsAnEdge<V(!new)>(w: Workflow<V>, input: V, states: seq<Run<V>>, visits: seq<Visit<V>>, i: nat)
    requires NoBounds(w) && IsHistory(w, input, states, visits) && i + 1 < |visits|
    ensures CycleValidator.FreeStep(GraphOf(w), states[i].current, states[i + 1].current)
  {
    assert IsStep(w, input, states, visits, i + 1);
    assert IsStep(w, input, states, visits, i);
    VisitFollowsAnEdge(w, states[i], visits[i].raw);
  }

  /**
   A workflow that passes the cycle check and declares no loop or max_hits visits each
   node at most once, in every run.
   */
  lemma EachNodeOnce<V(!new)>(w: Workflow<V>, input: V, states: seq<Run<V>>, visits: seq<Visit<V>>)
    requires IsHistory(w, input, states, visits) && CycleValidator.Clean(GraphOf(w), w.entry) && NoBounds(w)
    ensures CycleValidator.Simple(Visited(states, 0))
  {
    var walk := Visited(states, 0);
    if walk != [] {
      forall i | 0 <= i < |walk| - 1
        ensures CycleValidator.FreeStep(GraphOf(w), walk[i], walk[i + 1])
      {
        StepFollowsAnEdge(w, input, states, visits, i);
      }
      assert IsStep(w, input, states, visits, 0);
      CycleValidator.FreeRunsNeverRepeat(GraphOf(w), w.entry, walk);
    }
  }

  // ---------------------------------------------------------------- a node that goes back to itself

  /** One node "a" with a single edge back to itself, in a run of at most `steps` steps. */
  function Spinner(loop: Option<Loop>, maxHits: nat, steps: nat): Workflow<int> {
    Workflow("a", map["a" := Node(Plain, "", true, [Edge("a", loop, maxHits)], [])], steps, 0,
      (node: string, view: View<int>) => 0,
      (exit: Exit, input: int, view: View<int>) => true,
      (exit: Exit, input: int, view: View<int>) => map[],
      (value: int) => true,
      (view: View<int>) => true)
  }

  /** No way out of "a": without a loop, or with one that names "a" in on_exhausted. */
  predicate NoWayOut(loop: Option<Loop>) {
    loop.Some? ==> loop.value.onExhausted == "a" && loop.value.id.None?
  }

  /** The run after `i` visits of "a". */
  function Spun(loop: Option<Loop>, maxHits: nat, steps: nat, i: nat): (s: Run<int>)
    requires NoWayOut(loop)
    ensures s.current == "a" && s.step == i && s.result.None?
    ensures Count(s.hits, "a->a") == if maxHits > 0 then i else 0
    ensures Count(s.loops, "a_a") == if loop.Some? then i else 0
  {
    if i == 0 then Initial(Spinner(loop, maxHits, steps), 0)
    else
      var s := Spun(loop, maxHits, steps, i - 1);
      SpinOnce(loop, maxHits, steps, s);
      After(Spinner(loop, maxHits, steps), s, Ok(0))
  }

  lemma SpinOnce(loop: Option<Loop>, maxHits: nat, steps: nat, s: Run<int>)
    requires NoWayOut(loop) && s.current == "a" && s.result.None?
    ensures var t := After(Spinner(loop, maxHits, steps), s, Ok(0));
            && t.current == "a" && t.step == s.step + 1 && t.result.None?
            && Count(t.hits, "a->a") == Count(s.hits, "a->a") + (if maxHits > 0 then 1 else 0)
            && Count(t.loops, "a_a") == Count(s.loops, "a_a") + (if loop.Some? then 1 else 0)
    ensures Passes(Spinner(loop, maxHits, steps), s, Ok(0), "a_a") <==> loop.Some?
  {
    var w := Spinner(loop, maxHits, steps);
    assert Choice(w, s, Ok(0)) == 0;
    assert "a" + "->" + "a" == "a->a" && "a" + "_" + "a" == "a_a";
  }

  lemma SpinnerIsAccepted(loop: Option<Loop>, maxHits: nat, steps: nat)
    requires loop.Some? || maxHits > 0
    ensures CycleValidator.Clean(GraphOf(Spinner(loop, maxHits, steps)), "a")
  {
    var g := GraphOf(Spinner(loop, maxHits, steps));
    var edges := g["a"].next;
    assert g["a"].onError == [] && |edges| == 1 && CycleValidator.Bounded(edges[0]) && edges[0].to == "a";
    assert edges[..0] == [];
    calc {
      CycleValidator.SearchEdges(g, "a", CycleValidator.Next, edges, {} + {"a"});
      CycleValidator.SearchEdges(g, "a", CycleValidator.Next, [], {} + {"a"}) + [];
      [];
    }
  }

  /** From `s`, a visit that returns `raw` is possible whatever the number of events, and leads to `t`. */
  ghost predicate Repeats<V(!new)>(w: Workflow<V>, s: Run<V>, raw: Outcome<V>, t: Run<V>) {
    && s.current in w.nodes && CanVisit(w, s, 0) && w.maxEvents == 0 && Possible(w, s, raw)
    && w.within(Record(s.view, s.current, Settle(w, raw))) && t == After(w, s, raw)
  }

  function VisitOf<V>(w: Workflow<V>, s: Run<V>, raw: Outcome<V>): Visit<V>
    requires s.current in w.nodes
  {
    Visit(raw, 0, VisitEvents(w, s, raw, 0))
  }

  /** A chain of such visits is a history. */
  lemma RepeatsRun<V(!new)>(w: Workflow<V>, input: V, states: seq<Run<V>>, raw: Outcome<V>) returns (visits: seq<Visit<V>>)
    requires states != [] && states[0] == Initial(w, input)
    requires forall i :: 0 <= i < |states| - 1 ==> Repeats(w, states[i], raw, states[i + 1])
    ensures IsHistory(w, input, states, visits)
    ensures forall i :: 0 <= i < |visits| ==> visits[i].raw == raw
  {
    forall i | 0 <= i < |states| - 1
      ensures states[i].current in w.nodes
    {
      assert Repeats(w, states[i], raw, states[i + 1]);
    }
    visits := seq(|states| - 1, i requires 0 <= i < |states| - 1 => VisitOf(w, states[i], raw));
    forall i | 0 <= i < |visits|
      ensures IsStep(w, input, states, visits, i)
    {
      assert Repeats(w, states[i], raw, states[i + 1]);
      assert visits[i] == VisitOf(w, states[i], raw);
    }
  }

  /** The spinner visits "a" until its steps are used up. */
  lemma Spins(loop: Option<Loop>, maxHits: nat, steps: nat) returns (states: seq<Run<int>>, visits: seq<Visit<int>>)
    requires NoWayOut(loop)
    ensures |visits| == steps && IsHistory(Spinner(loop, maxHits, steps), 0, states, visits)
    ensures forall i :: 0 <= i <= steps ==> states[i] == Spun(loop, maxHits, steps, i)
    ensures forall i :: 0 <= i < steps ==> visits[i].raw == Ok(0)
  {
    var w := Spinner(loop, maxHits, steps);
    states := seq(steps + 1, i requires 0 <= i <= steps => Spun(loop, maxHits, steps, i));
    forall i | 0 <= i < steps
      ensures Repeats(w, states[i], Ok(0), states[i + 1])
    {
      SpinStep(loop, maxHits, steps, i);
    }
    visits := RepeatsRun(w, 0, states, Ok(0));
  }

  lemma SpinStep(loop: Option<Loop>, maxHits: nat, steps: nat, i: nat)
    requires NoWayOut(loop) && i < steps
    ensures Repeats(Spinner(loop, maxHits, steps), Spun(loop, maxHits, steps, i), Ok(0), Spun(loop, maxHits, steps, i + 1))
  {
  }

  /**
   max_hits does not stop a run: for every limit and number of steps there is an accepted
   workflow with a run that visits the limited edge's target until max_steps, the counter
   far beyond the limit.
   */
  lemma MaxHitsDoesNotStop(limit: nat, steps: nat) returns (w: Workflow<int>, states: seq<Run<int>>, visits: seq<Visit<int>>)
    requires limit > 0
    ensures CycleValidator.Clean(GraphOf(w), w.entry) && w.nodes.Keys == {"a"} && w.nodes["a"].next == [Edge("a", None, limit)]
    ensures IsHistory(w, 0, states, visits) && |visits| == steps == w.maxSteps
    ensures forall i :: 0 <= i <= steps ==> states[i].current == "a" && Count(states[i].hits, "a->a") == i
  {
    w := Spinner(None, limit, steps);
    SpinnerIsAccepted(None, limit, steps);
    states, visits := Spins(None, limit, steps);
  }

  /** A loop that names its own target in on_exhausted is not stopped by any max_iterations. */
  lemma OwnTargetNeverStops(limit: int, steps: nat) returns (w: Workflow<int>, states: seq<Run<int>>, visits: seq<Visit<int>>)
    ensures CycleValidator.Clean(GraphOf(w), w.entry)
    ensures w.nodes.Keys == {"a"} && w.nodes["a"].next == [Edge("a", Some(Loop(None, limit, "a")), 0)]
    ensures IsHistory(w, 0, states, visits) && |visits| == steps == w.maxSteps
    ensures Rounds(w, states, visits, "a_a", steps) == steps
  {
    var l := Loop(None, limit, "a");
    w := Spinner(Some(l), 0, steps);
    SpinnerIsAccepted(Some(l), 0, steps);
    states, visits := Spins(Some(l), 0, steps);
    var p := (k: nat) => k < |visits| && Passes(w, states[k], visits[k].raw, "a_a");
    forall k | 0 <= k < steps
      ensures p(k)
    {
      assert visits[k].raw == Ok(0) && states[k] == Spun(Some(l), 0, steps, k);
      SpinOnce(Some(l), 0, steps, states[k]);
    }
    TallyOfAll(p, steps);
  }
}
