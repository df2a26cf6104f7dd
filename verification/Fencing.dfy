/**
 Checkpoint persistence of one root run id by any number of engines
 (src/dage.cpp: create_run, the persist blocks of execute_step, restore_run).

 Every engine owns Run objects that remember the store version they hold. A
 persist is a compare-exchange on that version, a restore claims the version
 written inside the checkpoint it was given. The machine is generic in the
 checkpoint's contents.
 */
module Fencing {
  import opened Base
  import opened StateStore

  type RunId = nat

  /** A checkpoint document: its state_version field and everything else. */
  datatype Checkpoint<C> = Checkpoint(stateVersion: nat, content: C)

  /** One version step of the record, in order. */
  datatype Entry<C> =
    | Wrote(run: RunId, checkpoint: Checkpoint<C>)
    | Claimed(run: RunId)

  /**
   `held` maps each live Run to its store_version; `next` names the next Run;
   `log` is the history of successful store transitions.
   */
  datatype System<C> = System(
    record: Option<Record<Checkpoint<C>>>,
    held: map<RunId, nat>,
    next: RunId,
    log: seq<Entry<C>>)

  datatype Action<C> =
    | Create
    | Persist(run: RunId, content: C)
    | Crash(run: RunId)
    | Restore(checkpoint: Checkpoint<C>, owner: string)
    | RestoreThrown(checkpoint: Checkpoint<C>, owner: string)

  function Initial<C>(): System<C> {
    System(None, map[], 0, [])
  }

  function Version<C>(s: System<C>): nat {
    VersionOf(s.record)
  }

  /**
   A live run can persist or crash. A checkpoint can be restored when the store
   has the record; without a record only a never-persisted checkpoint is used.
   RestoreThrown is restore_run failing after its claim, on an in-flight node.
   */
  predicate Enabled<C>(s: System<C>, a: Action<C>) {
    match a
    case Create => true
    case Persist(r, _) => r in s.held
    case Crash(r) => r in s.held
    case Restore(c, _) => s.record.Some? || c.stateVersion == 0
    case RestoreThrown(_, _) => s.record.Some?
  }

  function PersistOutcome<C>(s: System<C>, r: RunId, content: C): Step<Checkpoint<C>, nat>
    requires r in s.held
  {
    var document := Checkpoint(s.held[r] + 1, content);
    CompareExchange(s.record, s.held[r], document, Checkpoint(0, content))
  }

  predicate PersistSucceeds<C>(s: System<C>, r: RunId) {
    r in s.held && Version(s) == s.held[r]
  }

  predicate ClaimSucceeds<C>(s: System<C>, c: Checkpoint<C>) {
    s.record.Some? && Version(s) == c.stateVersion
  }

  /** The two predicates are the store's answers. */
  lemma SucceedsMeansAnswered<C>(s: System<C>, r: RunId, content: C, c: Checkpoint<C>, owner: string)
    ensures r in s.held ==> (PersistSucceeds(s, r) <==> PersistOutcome(s, r, content).answer.Success?)
    ensures ClaimSucceeds(s, c) <==> Claim(s.record, c.stateVersion, owner).answer.Success?
  {
  }

  /** The store side of restore_run; `survives` says whether a Run object comes out of it. */
  function Recovered<C>(s: System<C>, c: Checkpoint<C>, owner: string, survives: bool): System<C> {
    if s.record.None? then
      if survives then s.(held := s.held[s.next := c.stateVersion], next := s.next + 1) else s
    else
      var claim := Claim(s.record, c.stateVersion, owner);
      match claim.answer
      case Failure(_) => s.(record := claim.record)
      case Success(r) =>
        System(claim.record,
               if survives then s.held[s.next := r.version] else s.held,
               s.next + 1,
               s.log + [Claimed(s.next)])
  }

  function Apply<C>(s: System<C>, a: Action<C>): System<C>
    requires Enabled(s, a)
  {
    match a
    case Create => s.(held := s.held[s.next := 0], next := s.next + 1)
    case Crash(r) => s.(held := s.held - {r})
    case Restore(c, owner) => Recovered(s, c, owner, true)
    case RestoreThrown(c, owner) => Recovered(s, c, owner, false)
    case Persist(r, content) =>
      var outcome := PersistOutcome(s, r, content);
      match outcome.answer
      case Failure(_) => s.(record := outcome.record)
      case Success(v) =>
        s.(record := outcome.record,
           held := s.held[r := v],
           log := s.log + [Wrote(r, Checkpoint(v, content))])
  }

  /**
   What a restore does, exactly. Without a record it only brings a run that holds the
   checkpoint's version. With the checkpoint's version stored it claims the record, and the
   run, unless the restore throws afterwards, holds the claimed version. Otherwise nothing changes.
   */
  lemma RestoreExactly<C>(s: System<C>, c: Checkpoint<C>, owner: string)
    requires Enabled(s, Restore(c, owner))
    ensures var t := Apply(s, Restore(c, owner));
            && (s.record.None? ==> t == s.(held := s.held[s.next := c.stateVersion], next := t.next) && t.next > s.next)
            && (s.record.Some? && s.record.value.version == c.stateVersion ==>
                  && t.record == Some(s.record.value.(version := c.stateVersion + 1, epoch := s.record.value.epoch + 1, owner := owner))
                  && t.held == s.held[s.next := c.stateVersion + 1] && t.next > s.next && t.log == s.log + [Claimed(s.next)])
            && (s.record.Some? && s.record.value.version != c.stateVersion ==> t == s)
    ensures Enabled(s, RestoreThrown(c, owner)) ==>
              var t, u := Apply(s, Restore(c, owner)), Apply(s, RestoreThrown(c, owner));
              u.record == t.record && u.log == t.log && u.held == s.held
  {
  }

  /** What a persist does, exactly: the holder of the stored version writes the next one, any other run nothing. */
  lemma PersistExactly<C>(s: System<C>, r: RunId, content: C)
    requires Enabled(s, Persist(r, content))
    ensures var t := Apply(s, Persist(r, content));
            var v := s.held[r];
            && (Version(s) == v ==>
                  && t.record.Some? && t.record.value.version == v + 1 && t.record.value.checkpoint == Checkpoint(v + 1, content)
                  && (s.record.Some? ==> t.record.value.epoch == s.record.value.epoch && t.record.value.owner == s.record.value.owner)
                  && t.held == s.held[r := v + 1] && t.log == s.log + [Wrote(r, Checkpoint(v + 1, content))])
            && (Version(s) != v ==> t.held == s.held && t.log == s.log && Version(t) == Version(s)
                                    && (s.record.Some? ==> t.record == s.record))
  {
  }

  /** A finite history of the system: states and the actions between them. */
  ghost predicate IsHistory<C(!new)>(states: seq<System<C>>, actions: seq<Action<C>>) {
    && |states| == |actions| + 1
    && states[0] == Initial()
    && forall i :: 0 <= i < |actions| ==>
                     Enabled(states[i], actions[i]) && states[i + 1] == Apply(states[i], actions[i])
  }

  // ---------------------------------------------------------------- invariant

  /** The log is the record: one entry per version, and the last write is what is stored. */
  ghost predicate LogMatchesRecord<C(!new)>(s: System<C>) {
    && Version(s) == |s.log|
    && (s.record.Some? ==> |s.log| > 0 && s.log[0].Wrote?)
    && (forall i :: 0 <= i < |s.log| && s.log[i].Wrote? ==> s.log[i].checkpoint.stateVersion == i + 1)
    && (s.record.Some? ==> IsLastWrite(s.log, s.record.value.checkpoint))
  }

  /** `c` is the newest checkpoint of the log. */
  ghost predicate IsLastWrite<C(!new)>(log: seq<Entry<C>>, c: Checkpoint<C>) {
    exists k :: 0 <= k < |log| && log[k].Wrote? && log[k].checkpoint == c
                && forall j :: k < j < |log| ==> log[j].Claimed?
  }

  /** Entry i extends what its own run produced, or introduces a run not seen before. */
  ghost predicate Extends<C(!new)>(log: seq<Entry<C>>, i: nat)
    requires i < |log|
  {
    if log[i].Wrote? then i > 0 ==> log[i].run == log[i - 1].run
    else forall j :: 0 <= j < i ==> log[j].run < log[i].run
  }

  ghost predicate Chained<C(!new)>(log: seq<Entry<C>>) {
    forall i :: 0 <= i < |log| ==> Extends(log, i)
  }

  lemma ChainGrows<C(!new)>(log: seq<Entry<C>>, e: Entry<C>)
    requires Chained(log) && Extends(log + [e], |log|)
    ensures Chained(log + [e])
  {
    forall i | 0 <= i < |log|
      ensures Extends(log + [e], i)
    {
      assert Extends(log, i);
    }
  }

  /** Nobody is ahead of the record, and only the last transition's run is level with it. */
  ghost predicate HoldersFenced<C(!new)>(s: System<C>) {
    && (forall r :: r in s.held ==> s.held[r] <= |s.log| && r < s.next)
    && (forall i :: 0 <= i < |s.log| ==> s.log[i].run < s.next)
    && (forall r :: r in s.held && 0 < |s.log| == s.held[r] ==> r == s.log[|s.log| - 1].run)
  }

  ghost predicate Inv<C(!new)>(s: System<C>) {
    LogMatchesRecord(s) && Chained(s.log) && HoldersFenced(s)
  }

  lemma {:induction false} PersistKeepsInv<C(!new)>(s: System<C>, r: RunId, content: C)
    requires Inv(s) && r in s.held
    ensures Inv(Apply(s, Persist(r, content)))
  {
    var t := Apply(s, Persist(r, content));
    if PersistSucceeds(s, r) {
      var k := |s.log|;
      assert t.log[k].checkpoint == t.record.value.checkpoint;
      assert IsLastWrite(t.log, t.record.value.checkpoint);
      ChainGrows(s.log, Wrote(r, t.record.value.checkpoint));
    }
  }

  lemma {:induction false} RecoverKeepsInv<C(!new)>(s: System<C>, c: Checkpoint<C>, owner: string, survives: bool)
    requires Inv(s) && (s.record.Some? || c.stateVersion == 0)
    ensures Inv(Recovered(s, c, owner, survives))
  {
    var t := Recovered(s, c, owner, survives);
    if ClaimSucceeds(s, c) {
      ChainGrows(s.log, Claimed(s.next));
      var k :| 0 <= k < |s.log| && s.log[k].Wrote? && s.log[k].checkpoint == s.record.value.checkpoint
               && forall j :: k < j < |s.log| ==> s.log[j].Claimed?;
      assert t.log[k].Wrote? && t.log[k].checkpoint == t.record.value.checkpoint;
      assert forall j :: k < j < |t.log| ==> t.log[j].Claimed?;
      assert IsLastWrite(t.log, t.record.value.checkpoint);
    }
  }

  lemma ActionKeepsInv<C(!new)>(s: System<C>, a: Action<C>)
    requires Inv(s) && Enabled(s, a)
    ensures Inv(Apply(s, a))
  {
    match a
    case Create =>
    case Crash(_) =>
    case Persist(r, content) => PersistKeepsInv(s, r, content);
    case Restore(c, owner) => RecoverKeepsInv(s, c, owner, true);
    case RestoreThrown(c, owner) => RecoverKeepsInv(s, c, owner, false);
  }

  lemma {:induction false} HistoryInv<C(!new)>(states: seq<System<C>>, actions: seq<Action<C>>, i: nat)
    requires IsHistory(states, actions) && i < |states|
    ensures Inv(states[i])
  {
    if i > 0 {
      HistoryInv(states, actions, i - 1);
      ActionKeepsInv(states[i - 1], actions[i - 1]);
    }
  }

  // ---------------------------------------------------------------- theorems

  /**
   Fencing. In every history, once the record has a positive version at most one
   live Run holds it; nobody holds a later one; and a persist is accepted exactly
   from a holder.
   */
  lemma AtMostOneHolder<C(!new)>(states: seq<System<C>>, actions: seq<Action<C>>, i: nat, r1: RunId, r2: RunId)
    requires IsHistory(states, actions) && i < |states|
    requires r1 in states[i].held && r2 in states[i].held
    ensures states[i].held[r1] <= Version(states[i])
    ensures Version(states[i]) > 0 && PersistSucceeds(states[i], r1) && PersistSucceeds(states[i], r2) ==> r1 == r2
  {
    HistoryInv(states, actions, i);
  }

  lemma VersionsNeverFall<C(!new)>(states: seq<System<C>>, actions: seq<Action<C>>, i: nat, j: nat)
    requires IsHistory(states, actions) && i <= j < |states|
    ensures |states[i].log| <= |states[j].log| && states[i].log == states[j].log[..|states[i].log|]
    ensures states[i].next <= states[j].next
    decreases j - i
  {
    if i < j {
      VersionsNeverFall(states, actions, i, j - 1);
      var s, a := states[j - 1], actions[j - 1];
      assert states[j] == Apply(s, a);
      assert |s.log| <= |states[j].log| && states[j].log[..|s.log|] == s.log;
    } else {
      assert states[i].log[..|states[i].log|] == states[i].log;
    }
  }

  ghost predicate Behind<C>(s: System<C>, r: RunId, version: nat) {
    r < s.next && version < Version(s) && (r in s.held ==> s.held[r] == version)
  }

  lemma BehindStep<C(!new)>(s: System<C>, a: Action<C>, r: RunId, version: nat)
    requires Inv(s) && Enabled(s, a) && Behind(s, r, version)
    ensures Behind(Apply(s, a), r, version)
  {
  }

  lemma {:induction false} BehindForEver<C(!new)>(
    states: seq<System<C>>, actions: seq<Action<C>>, i: nat, j: nat, r: RunId, version: nat)
    requires IsHistory(states, actions) && i <= j < |states| && Behind(states[i], r, version)
    ensures Behind(states[j], r, version)
    decreases j
  {
    if i < j {
      BehindForEver(states, actions, i, j - 1, r, version);
      HistoryInv(states, actions, j - 1);
      BehindStep(states[j - 1], actions[j - 1], r, version);
    }
  }

  /**
   A Run that fell behind the record stays behind for ever: at every later state it
   still holds its old version (or is gone), and none of its persists is accepted
   or changes the record.
   */
  lemma {:induction false} SupersededForEver<C(!new)>(
    states: seq<System<C>>, actions: seq<Action<C>>, i: nat, j: nat, r: RunId, content: C)
    requires IsHistory(states, actions) && i <= j < |states|
    requires r in states[i].held && states[i].held[r] < Version(states[i])
    ensures r in states[j].held ==>
              && states[j].held[r] == states[i].held[r] < Version(states[j])
              && !PersistSucceeds(states[j], r)
              && Apply(states[j], Persist(r, content)) == states[j]
  {
    HistoryInv(states, actions, i);
    BehindForEver(states, actions, i, j, r, states[i].held[r]);
    HistoryInv(states, actions, j);
  }

  /** A checkpoint can be won by one restore only: the claims on one state_version are exclusive. */
  lemma OneRestorePerCheckpoint<C(!new)>(
    states: seq<System<C>>, actions: seq<Action<C>>, i: nat, j: nat, c: Checkpoint<C>, d: Checkpoint<C>, owner: string)
    requires IsHistory(states, actions) && i < j < |actions|
    requires actions[i] == Restore(c, owner) && ClaimSucceeds(states[i], c)
    requires c.stateVersion == d.stateVersion
    ensures !ClaimSucceeds(states[j], d)
  {
    HistoryInv(states, actions, i);
    HistoryInv(states, actions, j);
    assert states[i + 1] == Apply(states[i], actions[i]);
    VersionsNeverFall(states, actions, i + 1, j);
  }

  /**
   Persisted checkpoints form one chain: entry k of the log brought the record to
   version k + 1; the first is a write, every later write was made by the Run that
   made the transition before it, and every claim introduced a Run never seen before.
   */
  lemma OneChain<C(!new)>(states: seq<System<C>>, actions: seq<Action<C>>, i: nat, k: nat)
    requires IsHistory(states, actions) && i < |states| && k < |states[i].log|
    ensures Version(states[i]) == |states[i].log|
    ensures states[i].log[0].Wrote?
    ensures var e := states[i].log[k];
            && (e.Wrote? ==> e.checkpoint.stateVersion == k + 1)
            && (e.Wrote? && k > 0 ==> e.run == states[i].log[k - 1].run)
            && (e.Claimed? ==> forall j :: 0 <= j < k ==> states[i].log[j].run < e.run)
  {
    HistoryInv(states, actions, i);
    assert Extends(states[i].log, k);
  }

  /** A checkpoint of this store is restorable exactly when it is the newest one and nobody claimed it yet. */
  lemma RestoresTheNewest<C(!new)>(states: seq<System<C>>, actions: seq<Action<C>>, i: nat, k: nat)
    requires IsHistory(states, actions) && i < |states|
    requires k < |states[i].log| && states[i].log[k].Wrote?
    ensures ClaimSucceeds(states[i], states[i].log[k].checkpoint) <==> k == |states[i].log| - 1
    ensures k == |states[i].log| - 1 ==> states[i].record.value.checkpoint == states[i].log[k].checkpoint
  {
    HistoryInv(states, actions, i);
  }

  /** The run id is stranded: its last transition was a claim whose Run is gone. */
  ghost predicate Stranded<C(!new)>(s: System<C>) {
    && |s.log| > 0
    && s.log[|s.log| - 1].Claimed?
    && s.log[|s.log| - 1].run !in s.held
  }

  ghost predicate Persisted<C(!new)>(s: System<C>, c: Checkpoint<C>) {
    exists k :: 0 <= k < |s.log| && s.log[k].Wrote? && s.log[k].checkpoint == c
  }

  /** The action restores only checkpoints that this store persisted. */
  ghost predicate UsesOwnCheckpoint<C(!new)>(s: System<C>, a: Action<C>) {
    a.Restore? || a.RestoreThrown? ==> Persisted(s, a.checkpoint)
  }

  ghost predicate OwnCheckpoints<C(!new)>(states: seq<System<C>>, actions: seq<Action<C>>)
    requires IsHistory(states, actions)
  {
    forall i :: 0 <= i < |actions| ==> UsesOwnCheckpoint(states[i], actions[i])
  }

  lemma StrandedStep<C(!new)>(s: System<C>, a: Action<C>)
    requires Inv(s) && Enabled(s, a) && UsesOwnCheckpoint(s, a) && Stranded(s)
    ensures var t := Apply(s, a);
            Stranded(t) && t.record == s.record && t.log == s.log
  {
  }

  /**
   Recovery is not crash-safe between a claim and the next persist: the stored
   checkpoint still carries the version from before the claim. A history that
   reaches such a state never changes the record again, whatever is created,
   persisted or restored afterwards.
   */
  lemma {:induction false} StrandedForEver<C(!new)>(states: seq<System<C>>, actions: seq<Action<C>>, i: nat, j: nat)
    requires IsHistory(states, actions) && OwnCheckpoints(states, actions)
    requires i <= j < |states| && Stranded(states[i])
    ensures Stranded(states[j]) && states[j].record == states[i].record && states[j].log == states[i].log
    decreases j
  {
    if i < j {
      StrandedForEver(states, actions, i, j - 1);
      HistoryInv(states, actions, j - 1);
      StrandedStep(states[j - 1], actions[j - 1]);
    }
  }

  /** Stranding is reachable in four actions: create, persist, restore, crash. */
  lemma StrandingHappens<C(!new)>(content: C) returns (states: seq<System<C>>, actions: seq<Action<C>>)
    ensures IsHistory(states, actions) && OwnCheckpoints(states, actions) && |actions| == 4
    ensures Stranded(states[4])
  {
    var c := Checkpoint(1, content);
    actions := [Create, Persist(0, content), Restore(c, "recovery-1"), Crash(1)];
    var s0: System<C> := Initial();
    var s1 := Apply(s0, actions[0]);
    var s2 := Apply(s1, actions[1]);
    var s3 := Apply(s2, actions[2]);
    var s4 := Apply(s3, actions[3]);
    states := [s0, s1, s2, s3, s4];
    assert states[2].log[0] == Wrote(0, c);
  }

  /** A run persists n times. */
  function Repersisted<C>(s: System<C>, r: RunId, content: C, n: nat): System<C>
    requires r in s.held
    ensures r in Repersisted(s, r, content, n).held
  {
    if n == 0 then s else Apply(Repersisted(s, r, content, n - 1), Persist(r, content))
  }

  lemma {:induction false} PersistsCatchUp<C(!new)>(s: System<C>, r: RunId, content: C, n: nat)
    requires PersistSucceeds(s, r) && Version(s) == 0
    ensures var t := Repersisted(s, r, content, n);
            && Version(t) == n && PersistSucceeds(t, r)
            && forall q :: q != r ==> (q in t.held <==> q in s.held) && (q in t.held ==> t.held[q] == s.held[q])
  {
    if n > 0 {
      PersistsCatchUp(s, r, content, n - 1);
    }
  }

  /**
   The restriction on restores into an empty store is needed: a checkpoint of another
   store, whatever its positive version, restored where no record exists, gives a
   second holder as soon as a run created there has persisted as often.
   */
  lemma ForeignCheckpointBreaksFencing<C(!new)>(content: C, version: nat, owner: string) returns (s: System<C>)
    requires version > 0
    ensures var foreign := Recovered(Apply(Initial(), Create), Checkpoint(version, content), owner, true);
            0 in foreign.held && s == Repersisted(foreign, 0, content, version)
    ensures Version(s) == version && PersistSucceeds(s, 0) && PersistSucceeds(s, 1)
  {
    var foreign := Recovered(Apply(Initial(), Create), Checkpoint(version, content), owner, true);
    PersistsCatchUp(foreign, 0, content, version);
    s := Repersisted(foreign, 0, content, version);
    assert 1 in foreign.held && foreign.held[1] == version;
  }
}
