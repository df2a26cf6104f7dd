/**
 The versioned record stores of src/reliability.cpp.

 One record is updated by optimistic compare-exchange and by recovery claims.
 The in-memory store is a class over its map; the pure functions on a single
 record are the specification that the fencing protocol reasons with.
 */
module StateStore {
  import opened Base

  datatype StoreError = StateNotFound | StateConflict | InvalidRunId | StateCorrupt | InvalidOwner | StateIoError

  datatype Record<C> = Record(version: nat, epoch: nat, owner: string, checkpoint: C)

  /** What one store operation leaves behind and what it answers. */
  datatype Step<C, T> = Step(record: Option<Record<C>>, answer: Result<T, StoreError>)

  /** Version of a record slot; a missing record counts as version 0. */
  function VersionOf<C>(slot: Option<Record<C>>): nat {
    match slot case None => 0 case Some(r) => r.version
  }

  /**
   MemoryStateStore::compare_exchange on one slot. Indexing the map creates a
   zero record first, so even a refused exchange leaves a record behind.
   */
  function CompareExchange<C>(slot: Option<Record<C>>, expected: nat, checkpoint: C, blank: C): Step<C, nat> {
    var record := match slot case None => Record(0, 0, "", blank) case Some(r) => r;
    if record.version != expected then
      Step(Some(record), Failure(StateConflict))
    else
      var saved := record.(version := record.version + 1, checkpoint := checkpoint);
      Step(Some(saved), Success(saved.version))
  }

  /** MemoryStateStore::claim on one slot: a claim never changes the checkpoint. */
  function Claim<C>(slot: Option<Record<C>>, expected: nat, owner: string): Step<C, Record<C>> {
    match slot
    case None => Step(None, Failure(StateNotFound))
    case Some(r) =>
      if r.version != expected then
        Step(slot, Failure(StateConflict))
      else
        var claimed := r.(version := r.version + 1, epoch := r.epoch + 1, owner := owner);
        Step(Some(claimed), Success(claimed))
  }

  /** The two operations that move a record on. */
  datatype Move<C> = Exchange(checkpoint: C, blank: C) | Take(owner: string)

  function Moved<C>(slot: Option<Record<C>>, expected: nat, m: Move<C>): Option<Record<C>> {
    match m
    case Exchange(c, blank) => CompareExchange(slot, expected, c, blank).record
    case Take(owner) => Claim(slot, expected, owner).record
  }

  predicate Accepted<C>(slot: Option<Record<C>>, expected: nat, m: Move<C>) {
    match m
    case Exchange(c, blank) => CompareExchange(slot, expected, c, blank).answer.Success?
    case Take(owner) => Claim(slot, expected, owner).answer.Success?
  }

  /**
   A slot has one winner per version: of any two operations, exchanges or claims by
   any owners, that name the same expected version, the second is refused after the
   first was accepted, and changes nothing.
   */
  lemma OneWinnerPerVersion<C>(slot: Option<Record<C>>, expected: nat, first: Move<C>, second: Move<C>)
    requires Accepted(slot, expected, first)
    ensures VersionOf(slot) == expected && VersionOf(Moved(slot, expected, first)) == expected + 1
    ensures var after := Moved(slot, expected, first);
            !Accepted(after, expected, second) && Moved(after, expected, second) == after
  {
  }

  /** An attempt to move the record on; a refused one changes nothing but may create the blank record. */
  datatype Attempt<C> = Attempt(expected: nat, move: Move<C>)

  /** The slot after the first `n` attempts on an empty store. */
  function SlotAfter<C>(attempts: seq<Attempt<C>>, n: nat): Option<Record<C>>
    requires n <= |attempts|
  {
    if n == 0 then None
    else Moved(SlotAfter(attempts, n - 1), attempts[n - 1].expected, attempts[n - 1].move)
  }

  /** An attempt wins if it names the current version, and a claim also needs a record. */
  predicate Wins<C>(attempts: seq<Attempt<C>>, i: nat)
    requires i < |attempts|
  {
    var slot := SlotAfter(attempts, i);
    VersionOf(slot) == attempts[i].expected && (attempts[i].move.Take? ==> slot.Some?)
  }

  /** How many of the first `n` attempts won, and how many of these were claims. */
  function Won<C>(attempts: seq<Attempt<C>>, n: nat): (nat, nat)
    requires n <= |attempts|
  {
    if n == 0 then (0, 0)
    else
      var (moves, claims) := Won(attempts, n - 1);
      if !Wins(attempts, n - 1) then (moves, claims)
      else (moves + 1, if attempts[n - 1].move.Take? then claims + 1 else claims)
  }

  /** The owner of the last claim that won, if any. */
  function LastOwner<C>(attempts: seq<Attempt<C>>, n: nat): string
    requires n <= |attempts|
  {
    if n == 0 then ""
    else if Wins(attempts, n - 1) && attempts[n - 1].move.Take? then attempts[n - 1].move.owner
    else LastOwner(attempts, n - 1)
  }

  /** The checkpoint of the last exchange that won. */
  function LastWritten<C>(attempts: seq<Attempt<C>>, n: nat): Option<C>
    requires n <= |attempts|
  {
    if n == 0 then None
    else if Wins(attempts, n - 1) && attempts[n - 1].move.Exchange? then Some(attempts[n - 1].move.checkpoint)
    else LastWritten(attempts, n - 1)
  }

  /**
   A record tells its history: its version is the number of exchanges and claims that won,
   its epoch the number of claims, its owner the last claimant, its checkpoint the last one
   written; and an attempt is answered with success exactly if it won.
   */
  lemma {:induction false} RecordTellsHistory<C>(attempts: seq<Attempt<C>>, n: nat)
    requires n <= |attempts|
    ensures VersionOf(SlotAfter(attempts, n)) == Won(attempts, n).0
    ensures match SlotAfter(attempts, n)
            case None => LastWritten(attempts, n).None? && LastOwner(attempts, n) == "" && Won(attempts, n) == (0, 0)
            case Some(r) =>
              && r.epoch == Won(attempts, n).1 && r.owner == LastOwner(attempts, n)
              && (LastWritten(attempts, n).Some? ==> r.checkpoint == LastWritten(attempts, n).value)
    ensures n < |attempts| ==>
              (Accepted(SlotAfter(attempts, n), attempts[n].expected, attempts[n].move) <==> Wins(attempts, n))
  {
    if n > 0 {
      RecordTellsHistory(attempts, n - 1);
    }
  }

  ghost function Slot<C>(states: map<string, Record<C>>, id: string): Option<Record<C>> {
    if id in states then Some(states[id]) else None
  }

  class MemoryStateStore {
    var states: map<string, Record<string>>

    constructor ()
      ensures states == map[]
    {
      states := map[];
    }

    method Load(id: string) returns (answer: Result<Record<string>, StoreError>)
      ensures answer == if id in states then Success(states[id]) else Failure(StateNotFound)
    {
      if id in states {
        answer := Success(states[id]);
      } else {
        answer := Failure(StateNotFound);
      }
    }

    method Put(id: string, checkpoint: string) returns (answer: Result<bool, StoreError>)
      modifies this
      ensures id == "" ==> states == old(states) && answer == Failure(InvalidRunId)
      ensures id != "" ==>
                var before := old(Slot(states, id));
                answer == Success(true)
                && Slot(states, id) == CompareExchange(before, VersionOf(before), checkpoint, "").record
                && states - {id} == old(states) - {id}
    {
      if id == "" {
        return Failure(InvalidRunId);
      }
      var record := if id in states then states[id] else Record(0, 0, "", "");
      states := states[id := record.(version := record.version + 1, checkpoint := checkpoint)];
      answer := Success(true);
    }

    method CompareAndSet(id: string, expected: nat, checkpoint: string) returns (answer: Result<nat, StoreError>)
      modifies this
      ensures Step(Slot(states, id), answer) == CompareExchange(old(Slot(states, id)), expected, checkpoint, "")
      ensures states - {id} == old(states) - {id}
    {
      var record := if id in states then states[id] else Record(0, 0, "", "");
      if record.version != expected {
        states := states[id := record];
        return Failure(StateConflict);
      }
      record := record.(version := record.version + 1, checkpoint := checkpoint);
      states := states[id := record];
      answer := Success(record.version);
    }

    method Recover(id: string, expected: nat, owner: string) returns (answer: Result<Record<string>, StoreError>)
      modifies this
      ensures Step(Slot(states, id), answer) == Claim(old(Slot(states, id)), expected, owner)
      ensures states - {id} == old(states) - {id}
    {
      if id !in states {
        return Failure(StateNotFound);
      }
      var record := states[id];
      if record.version != expected {
        return Failure(StateConflict);
      }
      record := record.(version := record.version + 1, epoch := record.epoch + 1, owner := owner);
      states := states[id := record];
      answer := Success(record);
    }
  }
}
