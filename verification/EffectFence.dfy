/**
 The prepare/commit fence of one external-write or irreversible node, across
 visits, executor failures, crashes and restores of one run id by any number of
 engines (src/dage.cpp: execute_step effect handling, restore_run).

 Persistence is the fencing machine of module Fencing, with the node's effect
 record as checkpoint content. The run mode admits the effect; selective_rerun
 is not part of the machine.
 */
module EffectFence {
  import opened Base
  import opened StateStore
  import opened Fencing

  datatype Status = Absent | Prepared | Committed | Unknown

  /** What a checkpoint says about the node: its effect record and whether node_status is Running. */
  datatype Content = Content(status: Status, running: bool)

  /** Compiled facts: replay policy is safe/idempotent, the retry limit, async executor or not. */
  datatype Config = Config(replayable: bool, maxAttempts: nat, isAsync: bool)

  datatype Phase = Idle | Ready | Executing(attempt: nat)

  /** The node as one live Run sees it; `fence` is the version its last prepare wrote. */
  datatype Local = Local(status: Status, running: bool, phase: Phase, fence: nat)

  /** `starts`, `prepares` and `unknowns` count executor starts, accepted prepares and moves to Unknown. */
  datatype World = World(
    system: System<Content>,
    locals: map<RunId, Local>,
    starts: nat,
    prepares: nat,
    unknowns: nat)

  datatype Event =
    | Create
    | Crash(run: RunId)
    | Restore(checkpoint: Checkpoint<Content>, owner: string)
    | Visit(run: RunId)                                   // reach the node, check the fence, prepare
    | Interrupt(run: RunId)                               // prepared, but no executor start follows
    | Start(run: RunId)                                   // first attempt
    | Return(run: RunId, success: bool, committed: bool, retry: bool)
    | Save(run: RunId, running: bool)                     // checkpoint after a node, or of another node

  function Initial(): World {
    World(Fencing.Initial(), map[], 0, 0, 0)
  }

  predicate Enabled(cfg: Config, w: World, e: Event) {
    match e
    case Create => true
    case Crash(r) => r in w.locals && r in w.system.held
    case Restore(c, _) => w.system.record.Some? || (c.stateVersion == 0 && c.content == Content(Absent, false))
    case Visit(r) => r in w.locals && r in w.system.held && w.locals[r].phase.Idle?
    case Interrupt(r) => r in w.locals && w.locals[r].phase.Ready?
    case Start(r) => r in w.locals && w.locals[r].phase.Ready? && 1 <= cfg.maxAttempts
    case Return(r, _, _, _) => r in w.locals && r in w.system.held && w.locals[r].phase.Executing?
    case Save(r, _) => r in w.locals && r in w.system.held && w.locals[r].phase.Idle?
  }

  /** Write the node's record through the fenced store. */
  function PersistLocal(w: World, r: RunId, l: Local): World
    requires r in w.system.held
  {
    w.(system := Fencing.Apply(w.system, Persist(r, Content(l.status, l.running))))
  }

  function Visited(cfg: Config, w: World, r: RunId): World
    requires r in w.locals && r in w.system.held
  {
    var l := w.locals[r];
    if l.status == Committed then
      w.(locals := w.locals[r := l.(running := false)])
    else if l.status == Prepared && !cfg.replayable then
      w.(locals := w.locals[r := l.(running := true)])
    else
      var prepared := l.(status := Prepared, running := true);
      var saved := PersistLocal(w, r, prepared);
      if PersistSucceeds(w.system, r) then
        saved.(locals := w.locals[r := prepared.(phase := Ready, fence := saved.system.held[r])],
               prepares := w.prepares + 1)
      else
        saved.(locals := w.locals[r := prepared])
  }

  function Returned(cfg: Config, w: World, r: RunId, success: bool, committed: bool, retry: bool): World
    requires r in w.locals && r in w.system.held && w.locals[r].phase.Executing?
  {
    var l := w.locals[r];
    var done := l.(phase := Idle);
    if cfg.isAsync && l.status == Prepared && !cfg.replayable then
      // the continuation meets the prepared fence before it looks at the result
      w.(locals := w.locals[r := done])
    else if committed then
      var settled := done.(status := if success then Committed else Unknown);
      PersistLocal(w, r, settled).(locals := w.locals[r := settled],
                                   unknowns := w.unknowns + (if success then 0 else 1))
    else if success then
      w.(locals := w.locals[r := done.(status := Unknown)], unknowns := w.unknowns + 1)
    else if retry && l.phase.attempt < cfg.maxAttempts then
      w.(locals := w.locals[r := l.(phase := Executing(l.phase.attempt + 1))], starts := w.starts + 1)
    else
      w.(locals := w.locals[r := done])
  }

  /** restore_run refuses an in-flight node that may not be replayed, after it has claimed the record. */
  function Restored(cfg: Config, w: World, c: Checkpoint<Content>, owner: string): World
    requires w.system.record.Some? || c.stateVersion == 0
  {
    var s := w.system;
    var refused := c.content.running && !cfg.replayable;
    if s.record.Some? && !ClaimSucceeds(s, c) then
      w.(system := Recovered(s, c, owner, false))
    else if refused then
      w.(system := Recovered(s, c, owner, false))
    else
      w.(system := Recovered(s, c, owner, true),
         locals := w.locals[s.next := Local(c.content.status, false, Idle, 0)])
  }

  function Apply(cfg: Config, w: World, e: Event): World
    requires Enabled(cfg, w, e)
  {
    match e
    case Create =>
      w.(system := Fencing.Apply(w.system, Fencing.Create),
         locals := w.locals[w.system.next := Local(Absent, false, Idle, 0)])
    case Crash(r) =>
      w.(system := Fencing.Apply(w.system, Fencing.Crash(r)), locals := w.locals - {r})
    case Restore(c, owner) => Restored(cfg, w, c, owner)
    case Visit(r) => Visited(cfg, w, r)
    case Interrupt(r) => w.(locals := w.locals[r := w.locals[r].(phase := Idle)])
    case Start(r) => w.(locals := w.locals[r := w.locals[r].(phase := Executing(1))], starts := w.starts + 1)
    case Return(r, success, committed, retry) => Returned(cfg, w, r, success, committed, retry)
    case Save(r, running) =>
      var l := w.locals[r].(running := running);
      PersistLocal(w, r, l).(locals := w.locals[r := l])
  }

  /** Restores use the store's own newest checkpoints, as Fencing.OwnCheckpoints. */
  ghost predicate Admissible(cfg: Config, w: World, e: Event) {
    && Enabled(cfg, w, e)
    && (e.Restore? && w.system.record.Some? ==> Persisted(w.system, e.checkpoint))
  }

  ghost predicate IsStep(cfg: Config, w: World, e: Event, w': World) {
    Admissible(cfg, w, e) && w' == Apply(cfg, w, e)
  }

  ghost predicate IsHistory(cfg: Config, worlds: seq<World>, events: seq<Event>) {
    && |worlds| == |events| + 1
    && worlds[0] == Initial()
    && forall i :: 0 <= i < |events| ==> IsStep(cfg, worlds[i], events[i], worlds[i + 1])
  }

  // ---------------------------------------------------------------- invariant

  /** Live Runs and their node records are the same Runs, and the store is fenced. */
  ghost predicate Linked(w: World) {
    && Fencing.Inv(w.system)
    && w.locals.Keys == w.system.held.Keys
  }

  /** A run that may start or is executing wrote its own prepared fence to the store first. */
  ghost predicate FenceWritten(w: World, r: RunId)
    requires r in w.locals
  {
    var l := w.locals[r];
    !l.phase.Idle? ==>
      && l.status == Prepared
      && 1 <= l.fence <= |w.system.log|
      && w.system.log[l.fence - 1] == Wrote(r, Checkpoint(l.fence, Content(Prepared, true)))
  }

  ghost predicate Fenced(w: World) {
    forall r :: r in w.locals ==> FenceWritten(w, r)
  }

  /** Once the stored record says committed, the holder knows. */
  ghost predicate CommitKnown(w: World) {
    w.system.record.Some? && w.system.record.value.checkpoint.content.status == Committed ==>
      forall r :: r in w.locals && PersistSucceeds(w.system, r) ==> w.locals[r].status == Committed
  }

  ghost predicate Inv(w: World) {
    Linked(w) && Fenced(w) && CommitKnown(w)
  }

  /** The log only grows, so fences written earlier stay written. */
  lemma FencesStay(w: World, w': World)
    requires Fenced(w)
    requires |w.system.log| <= |w'.system.log| && w'.system.log[..|w.system.log|] == w.system.log
    requires forall r :: r in w'.locals && !w'.locals[r].phase.Idle? ==>
                           r in w.locals && !w.locals[r].phase.Idle?
                           && w'.locals[r].status == w.locals[r].status && w'.locals[r].fence == w.locals[r].fence
    ensures Fenced(w')
  {
    forall r | r in w'.locals
      ensures FenceWritten(w', r)
    {
      if !w'.locals[r].phase.Idle? {
        assert FenceWritten(w, r);
        var k := w.locals[r].fence - 1;
        assert w'.system.log[..|w.system.log|][k] == w.system.log[k];
      }
    }
  }

  lemma PrepareFenced(cfg: Config, w: World, r: RunId)
    requires Fenced(w) && Enabled(cfg, w, Visit(r)) && Version(w.system) == |w.system.log|
    requires w.locals[r].status != Committed && (w.locals[r].status == Prepared ==> cfg.replayable)
    ensures Fenced(Visited(cfg, w, r))
  {
    var w' := Visited(cfg, w, r);
    var others := w'.(locals := w'.locals[r := w.locals[r]]);
    FencesStay(w, others);
    forall q | q in w'.locals
      ensures FenceWritten(w', q)
    {
      assert q != r ==> FenceWritten(others, q);
    }
  }

  lemma PrepareKeepsCommit(cfg: Config, w: World, r: RunId)
    requires Inv(w) && Enabled(cfg, w, Visit(r))
    requires w.locals[r].status != Committed && (w.locals[r].status == Prepared ==> cfg.replayable)
    ensures CommitKnown(Visited(cfg, w, r))
  {
  }

  lemma VisitKeepsInv(cfg: Config, w: World, r: RunId)
    requires Inv(w) && Enabled(cfg, w, Visit(r))
    ensures Inv(Visited(cfg, w, r))
  {
    var l := w.locals[r];
    if l.status == Committed || (l.status == Prepared && !cfg.replayable) {
      FencesStay(w, Visited(cfg, w, r));
    } else {
      PrepareFenced(cfg, w, r);
      PrepareKeepsCommit(cfg, w, r);
      PersistKeepsInv(w.system, r, Content(Prepared, true));
      assert Linked(Visited(cfg, w, r));
    }
  }

  lemma ReturnKeepsFences(cfg: Config, w: World, e: Event)
    requires Fenced(w) && Enabled(cfg, w, e) && e.Return? && Version(w.system) == |w.system.log|
    ensures Fenced(Apply(cfg, w, e))
  {
    assert FenceWritten(w, e.run);
    FencesStay(w, Apply(cfg, w, e));
  }

  lemma ReturnKeepsCommit(cfg: Config, w: World, e: Event)
    requires Inv(w) && Enabled(cfg, w, e) && e.Return?
    ensures CommitKnown(Apply(cfg, w, e))
  {
    assert FenceWritten(w, e.run);
  }

  lemma ReturnKeepsInv(cfg: Config, w: World, e: Event)
    requires Inv(w) && Enabled(cfg, w, e) && e.Return?
    ensures Inv(Apply(cfg, w, e))
  {
    ReturnKeepsFences(cfg, w, e);
    ReturnKeepsCommit(cfg, w, e);
    if e.committed && !(cfg.isAsync && w.locals[e.run].status == Prepared && !cfg.replayable) {
      PersistKeepsInv(w.system, e.run, Content(Apply(cfg, w, e).locals[e.run].status, w.locals[e.run].running));
    }
  }

  lemma SaveKeepsInv(cfg: Config, w: World, e: Event)
    requires Inv(w) && Enabled(cfg, w, e) && e.Save?
    ensures Inv(Apply(cfg, w, e))
  {
    PersistKeepsInv(w.system, e.run, Content(w.locals[e.run].status, e.running));
    FencesStay(w, Apply(cfg, w, e));
  }

  lemma RestoreKeepsCommit(cfg: Config, w: World, e: Event)
    requires Inv(w) && Admissible(cfg, w, e) && e.Restore?
    ensures CommitKnown(Apply(cfg, w, e))
  {
    if ClaimSucceeds(w.system, e.checkpoint) {
      NewestIsStored(w.system, e.checkpoint);
    }
  }

  lemma RestoreKeepsLink(cfg: Config, w: World, e: Event)
    requires Linked(w) && Admissible(cfg, w, e) && e.Restore?
    ensures Linked(Apply(cfg, w, e)) && w.system.next !in w.locals
  {
    RecoverKeepsInv(w.system, e.checkpoint, e.owner, false);
    RecoverKeepsInv(w.system, e.checkpoint, e.owner, true);
  }

  lemma RestoreKeepsInv(cfg: Config, w: World, e: Event)
    requires Inv(w) && Admissible(cfg, w, e) && e.Restore?
    ensures Inv(Apply(cfg, w, e))
  {
    RestoreKeepsLink(cfg, w, e);
    FencesStay(w, Apply(cfg, w, e));
    RestoreKeepsCommit(cfg, w, e);
  }

  /** The claimable checkpoint of this store is the stored one. */
  lemma NewestIsStored(s: System<Content>, c: Checkpoint<Content>)
    requires Fencing.Inv(s) && Persisted(s, c) && ClaimSucceeds(s, c)
    ensures s.record.value.checkpoint == c
  {
    var k :| 0 <= k < |s.log| && s.log[k].Wrote? && s.log[k].checkpoint == c;
    assert k == |s.log| - 1;
  }

  /** Events that write nothing to the store. */
  predicate Quiet(e: Event) {
    e.Create? || e.Crash? || e.Interrupt? || e.Start?
  }

  lemma QuietKeepsLink(cfg: Config, w: World, e: Event)
    requires Linked(w) && Enabled(cfg, w, e) && Quiet(e)
    ensures Linked(Apply(cfg, w, e)) && w.system.next !in w.locals
  {
  }

  lemma QuietKeepsFences(cfg: Config, w: World, e: Event)
    requires Fenced(w) && Enabled(cfg, w, e) && Quiet(e) && w.system.next !in w.locals
    ensures Fenced(Apply(cfg, w, e))
  {
    FencesStay(w, Apply(cfg, w, e));
  }

  lemma QuietKeepsInv(cfg: Config, w: World, e: Event)
    requires Inv(w) && Enabled(cfg, w, e) && Quiet(e)
    ensures Inv(Apply(cfg, w, e))
  {
    QuietKeepsLink(cfg, w, e);
    QuietKeepsFences(cfg, w, e);
  }

  lemma EventKeepsInv(cfg: Config, w: World, e: Event)
    requires Inv(w) && Admissible(cfg, w, e)
    ensures Inv(Apply(cfg, w, e))
  {
    if e.Visit? {
      VisitKeepsInv(cfg, w, e.run);
    } else if e.Return? {
      ReturnKeepsInv(cfg, w, e);
    } else if e.Save? {
      SaveKeepsInv(cfg, w, e);
    } else if e.Restore? {
      RestoreKeepsInv(cfg, w, e);
    } else {
      QuietKeepsInv(cfg, w, e);
    }
  }

  lemma {:induction false} HistoryInv(cfg: Config, worlds: seq<World>, events: seq<Event>, i: nat)
    requires IsHistory(cfg, worlds, events) && i < |worlds|
    ensures Inv(worlds[i])
  {
    if i > 0 {
      HistoryInv(cfg, worlds, events, i - 1);
      assert IsStep(cfg, worlds[i - 1], events[i - 1], worlds[i]);
      EventKeepsInv(cfg, worlds[i - 1], events[i - 1]);
    }
  }

  // ---------------------------------------------------------------- theorems

  /** Event e starts the executor of run r in world w. */
  ghost predicate StartsExecutor(cfg: Config, w: World, e: Event) {
    Enabled(cfg, w, e) && Apply(cfg, w, e).starts > w.starts
  }

  /**
   No executor start without a durable fence: whenever an attempt starts, first or
   retry, the starting Run has itself persisted a prepared record for the node,
   and its own record is prepared, hence not committed.
   */
  lemma StartsAreFenced(cfg: Config, worlds: seq<World>, events: seq<Event>, i: nat)
    requires IsHistory(cfg, worlds, events) && i < |events| && StartsExecutor(cfg, worlds[i], events[i])
    ensures (events[i].Start? || events[i].Return?) && events[i].run in worlds[i].locals
    ensures var w, r := worlds[i], events[i].run;
            && w.locals[r].status == Prepared
            && exists k :: 0 <= k < |w.system.log|
                           && w.system.log[k] == Wrote(r, Checkpoint(k + 1, Content(Prepared, true)))
  {
    HistoryInv(cfg, worlds, events, i);
    var w, r := worlds[i], events[i].run;
    assert FenceWritten(w, r);
    assert w.system.log[w.locals[r].fence - 1].Wrote?;
  }

  ghost predicate StoredCommitted(w: World) {
    w.system.record.Some? && w.system.record.value.checkpoint.content.status == Committed
  }

  lemma CommittedStep(cfg: Config, w: World, e: Event)
    requires Inv(w) && Admissible(cfg, w, e) && StoredCommitted(w)
    ensures StoredCommitted(Apply(cfg, w, e)) && Apply(cfg, w, e).prepares == w.prepares
  {
    if e.Return? { assert FenceWritten(w, e.run); }
  }

  lemma CommittedNext(cfg: Config, worlds: seq<World>, events: seq<Event>, i: nat)
    requires IsHistory(cfg, worlds, events) && i < |events| && StoredCommitted(worlds[i])
    ensures StoredCommitted(worlds[i + 1]) && worlds[i + 1].prepares == worlds[i].prepares
  {
    HistoryInv(cfg, worlds, events, i);
    assert IsStep(cfg, worlds[i], events[i], worlds[i + 1]);
    CommittedStep(cfg, worlds[i], events[i]);
  }

  /**
   Once a committed record is stored it stays stored, through every crash and
   restore, and no Run ever prepares the node again.
   */
  lemma {:induction false} CommittedForEver(cfg: Config, worlds: seq<World>, events: seq<Event>, i: nat, j: nat)
    requires IsHistory(cfg, worlds, events) && i <= j < |worlds| && StoredCommitted(worlds[i])
    ensures StoredCommitted(worlds[j]) && worlds[j].prepares == worlds[i].prepares
    decreases j
  {
    if i < j {
      CommittedForEver(cfg, worlds, events, i, j - 1);
      CommittedNext(cfg, worlds, events, j - 1);
    }
  }

  // A node whose effects may not be repeated.

  ghost predicate Unrepeatable(cfg: Config) {
    !cfg.replayable && cfg.maxAttempts == 1
  }

  predicate Open(status: Status) {
    status == Absent || status == Unknown
  }

  /** Nobody who could still write has an open record, unless an Unknown paid for it. */
  ghost predicate Accounted(w: World) {
    && w.prepares <= 1 + w.unknowns
    && (w.system.record.None? ==> w.prepares == 0)
    && (w.system.record.Some? && Open(w.system.record.value.checkpoint.content.status) ==> w.prepares <= w.unknowns)
    && (forall r :: r in w.locals && PersistSucceeds(w.system, r) && Open(w.locals[r].status) ==>
                      w.prepares <= w.unknowns)
    && w.starts + |ReadyRuns(w)| <= w.prepares
  }

  ghost function ReadyRuns(w: World): set<RunId> {
    set r | r in w.locals && w.locals[r].phase.Ready?
  }

  /** After an accepted persist, the writer is the only one who can write. */
  lemma WriterAlone(s: System<Content>, r: RunId, content: Content, q: RunId)
    requires Fencing.Inv(s) && PersistSucceeds(s, r) && q != r
    ensures !PersistSucceeds(Fencing.Apply(s, Persist(r, content)), q)
  {
  }

  lemma PrepareAccounted(cfg: Config, w: World, r: RunId)
    requires Unrepeatable(cfg) && Accounted(w) && Enabled(cfg, w, Visit(r))
    requires Visited(cfg, w, r).prepares > w.prepares
    requires forall q :: PersistSucceeds(Visited(cfg, w, r).system, q) ==> q == r
    ensures Accounted(Visited(cfg, w, r))
  {
    var w' := Visited(cfg, w, r);
    assert ReadyRuns(w') == ReadyRuns(w) + {r};
  }

  lemma VisitAccounted(cfg: Config, w: World, r: RunId)
    requires Unrepeatable(cfg) && Inv(w) && Accounted(w) && Enabled(cfg, w, Visit(r))
    ensures Accounted(Visited(cfg, w, r))
  {
    var w' := Visited(cfg, w, r);
    if w'.prepares > w.prepares {
      forall q | PersistSucceeds(w'.system, q)
        ensures q == r
      {
        if q != r { WriterAlone(w.system, r, Content(Prepared, true), q); }
      }
      PrepareAccounted(cfg, w, r);
    } else {
      assert ReadyRuns(w') == ReadyRuns(w);
    }
  }

  lemma ReturnAccounted(cfg: Config, w: World, e: Event)
    requires Unrepeatable(cfg) && Inv(w) && Accounted(w) && Enabled(cfg, w, e) && e.Return?
    requires w.locals[e.run].phase.attempt >= 1
    ensures Accounted(Apply(cfg, w, e))
  {
    assert FenceWritten(w, e.run);
    assert ReadyRuns(Apply(cfg, w, e)) == ReadyRuns(w);
  }

  lemma RestoreAccounted(cfg: Config, w: World, e: Event)
    requires Inv(w) && Accounted(w) && Admissible(cfg, w, e) && e.Restore?
    ensures Accounted(Apply(cfg, w, e))
  {
    assert w.system.next !in w.locals;
    assert ReadyRuns(Apply(cfg, w, e)) == ReadyRuns(w);
    if ClaimSucceeds(w.system, e.checkpoint) {
      NewestIsStored(w.system, e.checkpoint);
    }
  }

  lemma CreateAccounted(cfg: Config, w: World)
    requires Linked(w) && Accounted(w)
    ensures Accounted(Apply(cfg, w, Event.Create))
  {
    assert w.system.next !in w.locals;
    assert ReadyRuns(Apply(cfg, w, Event.Create)) == ReadyRuns(w);
  }

  /** Losing a Run or leaving the prepared phase uses up a ready run, and a start only once. */
  lemma LeaveReadyAccounted(cfg: Config, w: World, e: Event)
    requires Accounted(w) && Enabled(cfg, w, e) && (e.Crash? || e.Interrupt? || e.Start?)
    ensures Accounted(Apply(cfg, w, e))
  {
    assert e.Start? ==> e.run in ReadyRuns(w);
    assert ReadyRuns(Apply(cfg, w, e)) == ReadyRuns(w) - {e.run};
  }

  lemma SaveAccounted(cfg: Config, w: World, e: Event)
    requires Inv(w) && Accounted(w) && Enabled(cfg, w, e) && e.Save?
    ensures Accounted(Apply(cfg, w, e))
  {
    assert ReadyRuns(Apply(cfg, w, e)) == ReadyRuns(w);
  }

  ghost predicate Counted(w: World) {
    forall r :: r in w.locals && w.locals[r].phase.Executing? ==> w.locals[r].phase.attempt >= 1
  }

  lemma EventAccounted(cfg: Config, w: World, e: Event)
    requires Unrepeatable(cfg) && Inv(w) && Accounted(w) && Admissible(cfg, w, e) && Counted(w)
    ensures Accounted(Apply(cfg, w, e))
  {
    if e.Visit? {
      VisitAccounted(cfg, w, e.run);
    } else if e.Return? {
      ReturnAccounted(cfg, w, e);
    } else if e.Save? {
      SaveAccounted(cfg, w, e);
    } else if e.Restore? {
      RestoreAccounted(cfg, w, e);
    } else if e.Create? {
      CreateAccounted(cfg, w);
    } else {
      LeaveReadyAccounted(cfg, w, e);
    }
  }

  lemma EventCounted(cfg: Config, w: World, e: Event)
    requires Counted(w) && Enabled(cfg, w, e)
    ensures Counted(Apply(cfg, w, e))
  {
  }

  lemma {:induction false} HistoryAccounted(cfg: Config, worlds: seq<World>, events: seq<Event>, i: nat)
    requires Unrepeatable(cfg) && IsHistory(cfg, worlds, events) && i < |worlds|
    ensures Accounted(worlds[i]) && Counted(worlds[i])
  {
    if i > 0 {
      HistoryAccounted(cfg, worlds, events, i - 1);
      HistoryInv(cfg, worlds, events, i - 1);
      assert IsStep(cfg, worlds[i - 1], events[i - 1], worlds[i]);
      EventAccounted(cfg, worlds[i - 1], events[i - 1]);
      EventCounted(cfg, worlds[i - 1], events[i - 1]);
    }
  }

  /**
   At most once. For an at_most_once, manual or forbidden node without retries, all
   engines together start the executor at most once more than the node's record
   became Unknown; in particular at most once while it never does.
   */
  lemma AtMostOnce(cfg: Config, worlds: seq<World>, events: seq<Event>, i: nat)
    requires Unrepeatable(cfg) && IsHistory(cfg, worlds, events) && i < |worlds|
    ensures worlds[i].starts <= 1 + worlds[i].unknowns
  {
    HistoryAccounted(cfg, worlds, events, i);
  }

  /** Run 0 may write, its record is open and it is at rest. */
  ghost predicate MayTry(w: World) {
    0 in w.locals && 0 in w.system.held && PersistSucceeds(w.system, 0) && Open(w.locals[0].status) && w.locals[0].phase.Idle?
  }

  lemma TryOnce(cfg: Config, w: World) returns (visited: World, started: World)
    requires MayTry(w) && 1 <= cfg.maxAttempts
    ensures IsStep(cfg, w, Visit(0), visited) && IsStep(cfg, visited, Start(0), started)
    ensures 0 in started.locals && 0 in started.system.held && PersistSucceeds(started.system, 0)
    ensures started.locals[0].status == Prepared && started.locals[0].phase == Executing(1)
    ensures started.starts == w.starts + 1 && started.unknowns == w.unknowns
  {
    visited := Apply(cfg, w, Visit(0));
    started := Apply(cfg, visited, Start(0));
  }

  /** The slack is real: a node whose record became Unknown is prepared and started again. */
  lemma UnknownRestarts() returns (cfg: Config, worlds: seq<World>, events: seq<Event>)
    ensures Unrepeatable(cfg) && IsHistory(cfg, worlds, events)
    ensures worlds[|worlds| - 1].starts == 2 == 1 + worlds[|worlds| - 1].unknowns
  {
    cfg := Config(false, 1, false);
    events := [Event.Create, Visit(0), Start(0), Return(0, true, false, false), Visit(0), Start(0)];
    var w0 := Initial();
    var w1 := Apply(cfg, w0, Event.Create);
    var w2, w3 := TryOnce(cfg, w1);
    var w4 := Apply(cfg, w3, Return(0, true, false, false));
    var w5, w6 := TryOnce(cfg, w4);
    worlds := [w0, w1, w2, w3, w4, w5, w6];
  }

  ghost predicate NeverCommitted(w: World) {
    && (forall r :: r in w.locals ==> w.locals[r].status != Committed)
    && (forall k :: 0 <= k < |w.system.log| && w.system.log[k].Wrote? ==>
                      w.system.log[k].checkpoint.content.status != Committed)
  }

  lemma NeverCommittedStep(cfg: Config, w: World, e: Event)
    requires cfg.isAsync && !cfg.replayable && Inv(w) && NeverCommitted(w) && Admissible(cfg, w, e)
    ensures NeverCommitted(Apply(cfg, w, e))
  {
    if e.Return? { assert FenceWritten(w, e.run); }
  }

  /**
   The fence shuts out its own continuation: with an asynchronous executor a node
   that is neither safe nor idempotent never reaches Committed, however often its
   executor commits and succeeds.
   */
  lemma {:induction false} AsyncUnrepeatableNeverCommits(cfg: Config, worlds: seq<World>, events: seq<Event>, i: nat)
    requires cfg.isAsync && !cfg.replayable && IsHistory(cfg, worlds, events) && i < |worlds|
    ensures NeverCommitted(worlds[i])
  {
    if i > 0 {
      AsyncUnrepeatableNeverCommits(cfg, worlds, events, i - 1);
      HistoryInv(cfg, worlds, events, i - 1);
      assert IsStep(cfg, worlds[i - 1], events[i - 1], worlds[i]);
      NeverCommittedStep(cfg, worlds[i - 1], events[i - 1]);
    }
  }

  /**
   When a committed success is recorded, exactly: the returning run's record becomes
   Committed unless the node is asynchronous and may not be repeated, and the stored
   record then says so too if the run still holds it.
   */
  lemma CommitIsRecorded(cfg: Config, w: World, r: RunId, retry: bool)
    requires Inv(w) && Enabled(cfg, w, Return(r, true, true, retry))
    ensures var w' := Apply(cfg, w, Return(r, true, true, retry));
            && (w'.locals[r].status == Committed <==> !(cfg.isAsync && !cfg.replayable))
            && (PersistSucceeds(w.system, r) ==> (StoredCommitted(w') <==> !(cfg.isAsync && !cfg.replayable)))
  {
    assert FenceWritten(w, r);
  }

  /** The failure happens: an asynchronous unrepeatable executor commits and succeeds, and its record stays prepared. */
  lemma CommittedSuccessIsLost() returns (cfg: Config, worlds: seq<World>, events: seq<Event>)
    ensures cfg.isAsync && !cfg.replayable && IsHistory(cfg, worlds, events) && |events| == 4
    ensures events[3] == Return(0, true, true, false) && worlds[4].starts == 1
    ensures 0 in worlds[4].locals && worlds[4].locals[0].status == Prepared && worlds[4].locals[0].phase.Idle?
    ensures worlds[4].system.record.Some? && worlds[4].system.record.value.checkpoint.content.status == Prepared
  {
    cfg := Config(false, 1, true);
    events := [Event.Create, Visit(0), Start(0), Return(0, true, true, false)];
    var w0 := Initial();
    var w1 := Apply(cfg, w0, events[0]);
    var w2 := Apply(cfg, w1, events[1]);
    var w3 := Apply(cfg, w2, events[2]);
    var w4 := Apply(cfg, w3, events[3]);
    worlds := [w0, w1, w2, w3, w4];
  }

  // ---------------------------------------------------------------- what each operation does

  /**
   When a visit gets as far as an executor start, exactly: the record is not committed, not
   a prepared one that may not be repeated, and the prepared record could be stored.
   */
  lemma VisitExactly(cfg: Config, w: World, r: RunId)
    requires Inv(w) && Enabled(cfg, w, Visit(r))
    ensures var w' := Apply(cfg, w, Visit(r));
            var status := w.locals[r].status;
            var open := status == Absent || status == Unknown || (status == Prepared && cfg.replayable);
            && (w'.locals[r].phase.Ready? <==> open && PersistSucceeds(w.system, r))
            && (w'.locals[r].phase.Ready? <==> w'.prepares == w.prepares + 1)
            && (w'.locals[r].phase.Ready? ==>
                  w'.system.record.Some? && w'.system.record.value.checkpoint.content == Content(Prepared, true))
            && w'.locals[r].status == (if open then Prepared else status)
            && w'.locals[r].running == (status != Committed)
            && (!open ==> w'.system == w.system) && w'.starts == w.starts
  {
  }

  /** What a returned attempt makes of the record, and when the next attempt starts. */
  lemma ReturnExactly(cfg: Config, w: World, r: RunId, success: bool, committed: bool, retry: bool)
    requires Inv(w) && Enabled(cfg, w, Return(r, success, committed, retry))
    ensures var w' := Apply(cfg, w, Return(r, success, committed, retry));
            var shut := cfg.isAsync && !cfg.replayable;
            var again := !shut && !success && !committed && retry && w.locals[r].phase.attempt < cfg.maxAttempts;
            && w'.locals[r].status == (if shut || (!success && !committed) then Prepared
                                       else if success && committed then Committed else Unknown)
            && (w'.starts == w.starts + if again then 1 else 0)
            && (w'.locals[r].phase == if again then Executing(w.locals[r].phase.attempt + 1) else Idle)
            && (w'.unknowns == w.unknowns + if w'.locals[r].status == Unknown then 1 else 0)
            && (shut || !committed ==> w'.system == w.system)
  {
    assert FenceWritten(w, r);
  }

  /** A created run knows nothing of the node; a crash takes its run and nothing else; a save stores what the run knows. */
  lemma LifeExactly(cfg: Config, w: World, r: RunId, running: bool)
    requires Inv(w)
    ensures Apply(cfg, w, Event.Create).locals == w.locals[w.system.next := Local(Absent, false, Idle, 0)]
    ensures Apply(cfg, w, Event.Create).system.record == w.system.record
    ensures Enabled(cfg, w, Event.Crash(r)) ==>
              && Apply(cfg, w, Event.Crash(r)).locals == w.locals - {r}
              && Apply(cfg, w, Event.Crash(r)).system == w.system.(held := w.system.held - {r})
    ensures Enabled(cfg, w, Save(r, running)) ==>
              var w' := Apply(cfg, w, Save(r, running));
              && w'.locals == w.locals[r := w.locals[r].(running := running)]
              && (PersistSucceeds(w.system, r) ==>
                    w'.system.record.Some? && w'.system.record.value.checkpoint.content == Content(w.locals[r].status, running))
              && (!PersistSucceeds(w.system, r) ==> w'.system.log == w.system.log && w'.system.held == w.system.held)
  {
  }

  /**
   When a restore yields a run, exactly: the record is missing or still has the checkpoint's
   version, and the checkpoint has no node in flight that may not be replayed. The claim is
   made first, so a refused restore has moved the record on too.
   */
  lemma RestoreExactly(cfg: Config, w: World, c: Checkpoint<Content>, owner: string)
    requires Inv(w) && Admissible(cfg, w, Event.Restore(c, owner))
    ensures var w' := Apply(cfg, w, Event.Restore(c, owner));
            var free := w.system.record.None? || w.system.record.value.version == c.stateVersion;
            && (w.system.next in w'.locals <==> free && !(c.content.running && !cfg.replayable))
            && (if w.system.next in w'.locals
                then w'.locals == w.locals[w.system.next := Local(c.content.status, false, Idle, 0)]
                else w'.locals == w.locals)
            && (w.system.record.Some? && free ==>
                  w'.system.record == Some(Record(c.stateVersion + 1, w.system.record.value.epoch + 1, owner,
                                                  w.system.record.value.checkpoint)))
            && (w.system.next in w'.locals && w.system.record.Some? ==>
                  w'.system.held[w.system.next] == c.stateVersion + 1)
  {
    assert w.system.next !in w.locals;
  }

  /** A run that crashed with the node in flight cannot be restored when the node may not be replayed. */
  lemma InFlightIsRefused() returns (cfg: Config, worlds: seq<World>, events: seq<Event>)
    ensures !cfg.replayable && IsHistory(cfg, worlds, events) && |events| == 4
    ensures events[3].Restore? && events[3].checkpoint == Checkpoint(1, Content(Prepared, true))
    ensures worlds[4].locals == map[] && worlds[4].system.record.Some? && worlds[4].system.record.value.version == 2
  {
    cfg := Config(false, 1, false);
    events := [Event.Create, Visit(0), Event.Crash(0), Event.Restore(Checkpoint(1, Content(Prepared, true)), "o")];
    var w0 := Initial();
    var w1 := Apply(cfg, w0, events[0]);
    var w2 := Apply(cfg, w1, events[1]);
    assert w2.system.log == [Wrote(0, Checkpoint(1, Content(Prepared, true)))];
    var w3 := Apply(cfg, w2, events[2]);
    assert w3.system.log[0] == Wrote(0, Checkpoint(1, Content(Prepared, true)));
    var w4 := Apply(cfg, w3, events[3]);
    worlds := [w0, w1, w2, w3, w4];
  }
}
