/**
 When a dependency resolution of src/bundle_resolver.cpp fails: every failure has a cause
 that can be reached from the root by following dependencies, and with a lock a resolution
 succeeds exactly when there is no cause.
 */
module ResolveFailures {
  import opened Base
  import opened SemVer
  import opened BundleResolver

  // ---------------------------------------------------------------- what a dependency stands for

  /** The version a dependency asks for: the locked one, or the highest compatible one the repository lists. */
  ghost predicate Asks(o: Options, locks: map<string, Locked>, d: Dependency, version: string) {
    if o.mode != Development then d.id in locks && version == locks[d.id].version
    else o.repository.Some? && d.id in o.repository.value.listed
         && Choose(o.repository.value.listed[d.id], d.constraint) == Some(version)
  }

  /** What the repository holds under an id and version; offline only its cache counts. */
  ghost predicate Holds(o: Options, id: string, version: string, b: Bundle) {
    && o.repository.Some?
    && if o.mode == Offline
       then id in o.repository.value.cache && version in o.repository.value.cache[id] && o.repository.value.cache[id][version] == b
       else id in o.repository.value.stock && version in o.repository.value.stock[id] && o.repository.value.stock[id][version] == b
  }

  /** Why a dependency cannot be fetched. */
  ghost predicate Unfetchable(o: Options, locks: map<string, Locked>, d: Dependency, e: ResolveError) {
    match e
    case RepositoryRequired => o.repository.None?
    case LockEntryRequired => o.repository.Some? && o.mode != Development && d.id !in locks
    case LockConstraintMismatch =>
      o.repository.Some? && o.mode != Development && d.id in locks && !Satisfies(locks[d.id].version, d.constraint)
    case VersionsUnavailable => o.repository.Some? && o.mode == Development && d.id !in o.repository.value.listed
    case NoCompatibleVersion =>
      && o.repository.Some? && o.mode == Development && d.id in o.repository.value.listed
      && forall v :: v in o.repository.value.listed[d.id] ==> !Satisfies(v, d.constraint)
    case BundleUnavailable => o.repository.Some? && exists v :: Asks(o, locks, d, v) && forall b :: !Holds(o, d.id, v, b)
    case IdentityMismatch => exists v, b :: Asks(o, locks, d, v) && Holds(o, d.id, v, b) && (b.id != d.id || b.version != v)
    case _ => false
  }

  /** Fetching, exactly: the bundle held under the version asked for, or the reason there is none. */
  lemma FetchAnswers(o: Options, locks: map<string, Locked>, d: Dependency)
    ensures match Fetch(o, locks, d)
            case Failure(error) => Unfetchable(o, locks, d, error)
            case Success(b) => Asks(o, locks, d, b.version) && Holds(o, d.id, b.version, b) && b.id == d.id
                               && Satisfies(b.version, d.constraint)
  {
    if Fetch(o, locks, d).Success? {
      FetchMeets(o, locks, d);
    } else if PickVersion(o, locks, d).Success? {
      var v := PickVersion(o, locks, d).value;
      assert Asks(o, locks, d, v);
      if d.id in Shelf(o) && v in Shelf(o)[d.id] {
        assert Holds(o, d.id, v, Shelf(o)[d.id][v]);
      }
    } else if PickVersion(o, locks, d).error == NoCompatibleVersion {
      var listed := o.repository.value.listed[d.id];
      forall v | v in listed && Satisfies(v, d.constraint)
        ensures Choose(listed, d.constraint).Some?
      {
        ChosenIsHighest(listed, d.constraint, v);
      }
    }
  }

  // ---------------------------------------------------------------- trails

  ghost predicate LeadsTo(o: Options, locks: map<string, Locked>, a: Bundle, b: Bundle) {
    exists d :: d in a.dependencies && Fetch(o, locks, d) == Success(b)
  }

  /** Bundles from the root on, each fetched for a dependency of the one before. */
  ghost predicate IsTrail(o: Options, locks: map<string, Locked>, root: Bundle, trail: seq<Bundle>) {
    && trail != [] && trail[0] == root
    && forall i :: 0 < i < |trail| ==> LeadsTo(o, locks, trail[i - 1], trail[i])
  }

  function LastOf(trail: seq<Bundle>): Bundle
    requires trail != []
  {
    trail[|trail| - 1]
  }

  ghost predicate Reached(o: Options, locks: map<string, Locked>, root: Bundle, b: Bundle) {
    exists trail :: IsTrail(o, locks, root, trail) && LastOf(trail) == b
  }

  lemma TrailGrows(o: Options, locks: map<string, Locked>, root: Bundle, trail: seq<Bundle>, d: Dependency)
    requires IsTrail(o, locks, root, trail) && d in LastOf(trail).dependencies && Fetch(o, locks, d).Success?
    ensures IsTrail(o, locks, root, trail + [Fetch(o, locks, d).value])
  {
    var b := Fetch(o, locks, d).value;
    assert LeadsTo(o, locks, LastOf(trail), b);
    LinkGrows(o, locks, root, trail, b);
  }

  lemma LinkGrows(o: Options, locks: map<string, Locked>, root: Bundle, trail: seq<Bundle>, b: Bundle)
    requires IsTrail(o, locks, root, trail) && LeadsTo(o, locks, LastOf(trail), b)
    ensures IsTrail(o, locks, root, trail + [b])
  {
    var longer := trail + [b];
    forall i | 0 < i < |longer|
      ensures LeadsTo(o, locks, longer[i - 1], longer[i])
    {
      if i < |trail| {
        assert LeadsTo(o, locks, trail[i - 1], trail[i]);
      }
    }
  }

  /** What the checks refuse a bundle for: its lock entry, or its signatures. */
  ghost predicate Inadmissible(o: Options, locks: map<string, Locked>, b: Bundle, source: string, e: ResolveError) {
    match e
    case LockEntryRequired => o.mode != Development && b.id !in locks
    case LockMismatch =>
      o.mode != Development && b.id in locks && (locks[b.id].version != b.version || locks[b.id].digest != b.digest)
    case LockSourceMismatch => o.mode != Development && b.id in locks && locks[b.id].source != "" && locks[b.id].source != source
    case Untrusted => (o.mode == Verified || o.mode == Offline) && !o.trusted(b)
    case _ => false
  }

  function SourceOf(o: Options, trail: seq<Bundle>): string {
    if |trail| == 1 then "root" else match o.repository case None => "" case Some(r) => r.source
  }

  /** A dependency of the last bundle that leads back onto the trail, or to an id taken with another version. */
  ghost predicate Clashes(o: Options, locks: map<string, Locked>, root: Bundle, trail: seq<Bundle>, d: Dependency, e: ResolveError) {
    match e
    case DependencyCycle => exists b :: b in trail && b.id == d.id
    case DependencyConflict => exists b :: Reached(o, locks, root, b) && b.id == d.id && !Satisfies(b.version, d.constraint)
    case _ => false
  }

  ghost predicate CauseAt(o: Options, locks: map<string, Locked>, root: Bundle, trail: seq<Bundle>, e: ResolveError)
    requires trail != []
  {
    || Inadmissible(o, locks, LastOf(trail), SourceOf(o, trail), e)
    || exists d :: d in LastOf(trail).dependencies
                   && (Unfetchable(o, locks, d, e) || Clashes(o, locks, root, trail, d, e))
  }

  /** Something at the end of a trail from the root explains the failure. */
  ghost predicate HasCause(o: Options, locks: map<string, Locked>, root: Bundle, e: ResolveError) {
    exists trail :: IsTrail(o, locks, root, trail) && CauseAt(o, locks, root, trail, e)
  }

  // ---------------------------------------------------------------- failures have causes

  ghost function Ids(trail: seq<Bundle>): set<string> {
    set b | b in trail :: b.id
  }

  /** Everything selected so far was reached, and the active ids are those of the trail. */
  ghost predicate OnTrail(o: Options, locks: map<string, Locked>, root: Bundle, s: State, trail: seq<Bundle>) {
    && Good(s) && s.active == Ids(trail)
    && (forall id :: id in s.bundles ==> Reached(o, locks, root, s.bundles[id]))
  }

  lemma AdmitAnswers(o: Options, locks: map<string, Locked>, b: Bundle, source: string)
    ensures Admit(o, locks, b, source).Some? ==> Inadmissible(o, locks, b, source, Admit(o, locks, b, source).value)
  {
  }

  lemma EnterOnTrail(o: Options, locks: map<string, Locked>, root: Bundle, s: State, trail: seq<Bundle>)
    requires IsTrail(o, locks, root, trail) && OnTrail(o, locks, root, s, trail[..|trail| - 1])
    requires LastOf(trail).id !in s.selected
    ensures OnTrail(o, locks, root, Enter(s, LastOf(trail)), trail)
  {
    var b := LastOf(trail);
    EnterGood(s, b);
    assert trail == trail[..|trail| - 1] + [b];
    assert Ids(trail) == Ids(trail[..|trail| - 1]) + {b.id};
    assert Reached(o, locks, root, b);
  }

  /** The visit of the last bundle of a trail. */
  lemma {:induction false} VisitExplained(o: Options, locks: map<string, Locked>, root: Bundle, s: State, trail: seq<Bundle>)
    requires IsTrail(o, locks, root, trail) && OnTrail(o, locks, root, s, trail[..|trail| - 1])
    requires LastOf(trail).id !in s.selected
    ensures match Visit(o, locks, s, LastOf(trail), SourceOf(o, trail))
            case Success(t) => OnTrail(o, locks, root, t, trail[..|trail| - 1])
            case Failure(error) => HasCause(o, locks, root, error)
    decreases Room(o, s.selected.Keys + {LastOf(trail).id}), |LastOf(trail).dependencies| + 1
  {
    var b, source := LastOf(trail), SourceOf(o, trail);
    VisitNew(o, locks, s, b, source);
    AdmitAnswers(o, locks, b, source);
    if Admit(o, locks, b, source).Some? {
      assert CauseAt(o, locks, root, trail, Admit(o, locks, b, source).value);
    } else {
      EnterOnTrail(o, locks, root, s, trail);
      DependenciesExplained(o, locks, root, Enter(s, b), trail, b.dependencies);
      var visited := VisitAll(o, locks, Enter(s, b), b.dependencies);
      if visited.Success? {
        VisitAllGood(o, locks, Enter(s, b), b.dependencies);
        LeaveGood(s, visited.value, b);
      }
    }
  }

  lemma {:induction false} DependenciesExplained(
    o: Options, locks: map<string, Locked>, root: Bundle, s: State, trail: seq<Bundle>, ds: seq<Dependency>)
    requires IsTrail(o, locks, root, trail) && OnTrail(o, locks, root, s, trail)
    requires forall d :: d in ds ==> d in LastOf(trail).dependencies
    ensures match VisitAll(o, locks, s, ds)
            case Success(t) => OnTrail(o, locks, root, t, trail)
            case Failure(error) => HasCause(o, locks, root, error)
    decreases Room(o, s.selected.Keys), |ds|
  {
    if ds != [] {
      DependencyExplained(o, locks, root, s, trail, ds[0]);
      var visited := VisitOne(o, locks, s, ds[0]);
      if visited.Success? {
        RoomShrinks(o, s.selected.Keys, visited.value.selected.Keys);
        DependenciesExplained(o, locks, root, visited.value, trail, ds[1..]);
      }
    }
  }

  lemma ClashIsCause(o: Options, locks: map<string, Locked>, root: Bundle, trail: seq<Bundle>, d: Dependency, e: ResolveError)
    requires IsTrail(o, locks, root, trail) && d in LastOf(trail).dependencies
    requires Unfetchable(o, locks, d, e) || Clashes(o, locks, root, trail, d, e)
    ensures HasCause(o, locks, root, e)
  {
    assert CauseAt(o, locks, root, trail, e);
  }

  /** A dependency whose id is taken. */
  lemma {:induction false} TakenExplained(
    o: Options, locks: map<string, Locked>, root: Bundle, s: State, trail: seq<Bundle>, d: Dependency)
    requires IsTrail(o, locks, root, trail) && OnTrail(o, locks, root, s, trail) && d in LastOf(trail).dependencies
    requires d.id in s.active || d.id in s.selected
    ensures match VisitOne(o, locks, s, d)
            case Success(t) => t == s
            case Failure(error) => HasCause(o, locks, root, error)
  {
    if d.id in s.active {
      assert Clashes(o, locks, root, trail, d, DependencyCycle);
      ClashIsCause(o, locks, root, trail, d, DependencyCycle);
    } else if !Satisfies(s.selected[d.id], d.constraint) {
      assert Reached(o, locks, root, s.bundles[d.id]);
      assert Clashes(o, locks, root, trail, d, DependencyConflict);
      ClashIsCause(o, locks, root, trail, d, DependencyConflict);
    }
  }

  lemma FetchedIsVisited(o: Options, locks: map<string, Locked>, s: State, d: Dependency, source: string)
    requires d.id !in s.active && d.id !in s.selected && Fetch(o, locks, d).Success? && source == Source(o)
    ensures VisitOne(o, locks, s, d) == Visit(o, locks, s, Fetch(o, locks, d).value, source)
  {
  }

  lemma {:induction false} DependencyExplained(
    o: Options, locks: map<string, Locked>, root: Bundle, s: State, trail: seq<Bundle>, d: Dependency)
    requires IsTrail(o, locks, root, trail) && OnTrail(o, locks, root, s, trail) && d in LastOf(trail).dependencies
    ensures match VisitOne(o, locks, s, d)
            case Success(t) => OnTrail(o, locks, root, t, trail)
            case Failure(error) => HasCause(o, locks, root, error)
    decreases Room(o, s.selected.Keys), 0, 1
  {
    if d.id in s.active || d.id in s.selected {
      TakenExplained(o, locks, root, s, trail, d);
    } else if Fetch(o, locks, d).Failure? {
      FetchAnswers(o, locks, d);
      ClashIsCause(o, locks, root, trail, d, Fetch(o, locks, d).error);
    } else {
      FetchedExplained(o, locks, root, s, trail, d);
    }
  }

  lemma {:induction false} FetchedExplained(
    o: Options, locks: map<string, Locked>, root: Bundle, s: State, trail: seq<Bundle>, d: Dependency)
    requires IsTrail(o, locks, root, trail) && OnTrail(o, locks, root, s, trail) && d in LastOf(trail).dependencies
    requires d.id !in s.active && d.id !in s.selected && Fetch(o, locks, d).Success?
    ensures match VisitOne(o, locks, s, d)
            case Success(t) => OnTrail(o, locks, root, t, trail)
            case Failure(error) => HasCause(o, locks, root, error)
    decreases Room(o, s.selected.Keys), 0, 0
  {
    var b := Fetch(o, locks, d).value;
    TrailGrows(o, locks, root, trail, d);
    assert (trail + [b])[..|trail|] == trail && LastOf(trail + [b]) == b;
    RoomShrinks(o, s.selected.Keys, s.selected.Keys + {b.id});
    VisitExplained(o, locks, root, s, trail + [b]);
    FetchedIsVisited(o, locks, s, d, SourceOf(o, trail + [b]));
  }

  /** Every failure of a resolution has a cause: in the lock text, or at the end of a trail of dependencies. */
  lemma FailuresHaveCauses(o: Options, lock: Lock, root: Bundle)
    requires Resolve(o, lock, root).Failure?
    ensures match Resolve(o, lock, root).error
            case InvalidLockEntry =>
              lock.Some? && exists id :: id in lock.value && (lock.value[id].version == "" || lock.value[id].digest == "")
            case LockfileRequired => o.mode != Development && lock.None?
            case e => HasCause(o, if lock.Some? then lock.value else map[], root, e)
  {
    if ParseLock(lock).Success? && !(LockedMode(o) && lock.None?) {
      var locks := ParseLock(lock).value;
      assert IsTrail(o, locks, root, [root]);
      assert [root][..0] == [];
      VisitExplained(o, locks, root, START, [root]);
    }
  }

  // ---------------------------------------------------------------- with a lock there is nothing else

  function OriginOf(o: Options, root: Bundle, id: string): string {
    if id == root.id then "root" else Source(o)
  }

  /** The bundle passed the checks, and unless it is the root it is what the repository holds under the locked version. */
  ghost predicate IsLocked(o: Options, locks: map<string, Locked>, root: Bundle, b: Bundle) {
    && Admit(o, locks, b, OriginOf(o, root, b.id)).None?
    && (b.id == root.id ==> b == root)
    && (b.id != root.id ==> b.id in locks && Holds(o, b.id, locks[b.id].version, b))
  }

  ghost predicate AllLocked(o: Options, locks: map<string, Locked>, root: Bundle, bundles: map<string, Bundle>) {
    forall id :: id in bundles ==> bundles[id].id == id && IsLocked(o, locks, root, bundles[id])
  }

  lemma FetchedIsLocked(o: Options, locks: map<string, Locked>, root: Bundle, d: Dependency)
    requires o.mode != Development && Fetch(o, locks, d).Success? && d.id != root.id
    requires Admit(o, locks, Fetch(o, locks, d).value, Source(o)).None?
    ensures IsLocked(o, locks, root, Fetch(o, locks, d).value)
  {
    FetchAnswers(o, locks, d);
  }

  lemma {:induction false} VisitLocks(o: Options, locks: map<string, Locked>, root: Bundle, s: State, b: Bundle)
    requires o.mode != Development && Good(s) && AllLocked(o, locks, root, s.bundles) && b.id !in s.selected
    requires Visit(o, locks, s, b, OriginOf(o, root, b.id)).Success? && (root.id in s.selected || b == root)
    requires Admit(o, locks, b, OriginOf(o, root, b.id)).None? ==> IsLocked(o, locks, root, b)
    ensures AllLocked(o, locks, root, Visit(o, locks, s, b, OriginOf(o, root, b.id)).value.bundles)
    decreases Room(o, s.selected.Keys + {b.id}), |b.dependencies| + 1
  {
    VisitNew(o, locks, s, b, OriginOf(o, root, b.id));
    EnterGood(s, b);
    EnterLocked(o, locks, root, s, b);
    DependenciesLock(o, locks, root, Enter(s, b), b.dependencies);
  }

  lemma EnterLocked(o: Options, locks: map<string, Locked>, root: Bundle, s: State, b: Bundle)
    requires AllLocked(o, locks, root, s.bundles) && IsLocked(o, locks, root, b)
    ensures AllLocked(o, locks, root, Enter(s, b).bundles)
  {
  }

  lemma {:induction false} DependenciesLock(o: Options, locks: map<string, Locked>, root: Bundle, s: State, ds: seq<Dependency>)
    requires o.mode != Development && Good(s) && AllLocked(o, locks, root, s.bundles) && root.id in s.selected
    requires VisitAll(o, locks, s, ds).Success?
    ensures AllLocked(o, locks, root, VisitAll(o, locks, s, ds).value.bundles)
    decreases Room(o, s.selected.Keys), |ds|
  {
    if ds != [] {
      var t := VisitOne(o, locks, s, ds[0]).value;
      VisitOneGood(o, locks, s, ds[0]);
      RoomShrinks(o, s.selected.Keys, t.selected.Keys);
      DependencyLocks(o, locks, root, s, ds[0]);
      DependenciesLock(o, locks, root, t, ds[1..]);
    }
  }

  lemma {:induction false} DependencyLocks(o: Options, locks: map<string, Locked>, root: Bundle, s: State, d: Dependency)
    requires o.mode != Development && Good(s) && AllLocked(o, locks, root, s.bundles) && root.id in s.selected
    requires VisitOne(o, locks, s, d).Success?
    ensures AllLocked(o, locks, root, VisitOne(o, locks, s, d).value.bundles)
    decreases Room(o, s.selected.Keys), 0
  {
    if d.id !in s.selected {
      var b := Fetch(o, locks, d).value;
      RoomShrinks(o, s.selected.Keys, s.selected.Keys + {b.id});
      if Admit(o, locks, b, Source(o)).None? {
        FetchedIsLocked(o, locks, root, d);
      }
      VisitLocks(o, locks, root, s, b);
    }
  }

  /** What a resolution with a lock leaves: a sorted graph of locked bundles, the root last. */
  ghost predicate Resolved(o: Options, locks: map<string, Locked>, root: Bundle, t: State) {
    && o.mode != Development && Good(t) && t.active == {} && AllLocked(o, locks, root, t.bundles)
    && root.id in t.bundles && t.order != [] && t.order[|t.order| - 1] == root.id
  }

  lemma VisitResolves(o: Options, locks: map<string, Locked>, root: Bundle)
    requires o.mode != Development && Visit(o, locks, START, root, "root").Success?
    ensures Resolved(o, locks, root, Visit(o, locks, START, root, "root").value)
  {
    VisitGood(o, locks, START, root, "root");
    VisitNew(o, locks, START, root, "root");
    VisitLocks(o, locks, root, START, root);
  }

  /** The dependencies of a resolved bundle stand before it in the order, so none is the root. */
  lemma DependencyStands(o: Options, locks: map<string, Locked>, root: Bundle, t: State, p: nat, d: Dependency) returns (q: nat)
    requires Resolved(o, locks, root, t) && p < |t.order| && t.order[p] in t.bundles && d in t.bundles[t.order[p]].dependencies
    ensures q < p && t.order[q] == d.id && d.id in t.bundles && d.id != root.id
    ensures Satisfies(t.bundles[d.id].version, d.constraint)
  {
    assert Settled(t.bundles, t.order, p);
    q :| 0 <= q < p && t.order[..p][q] == d.id;
    assert t.order[q] != t.order[|t.order| - 1];
  }

  /** A dependency of a resolved bundle is fetched as the bundle it was resolved to. */
  lemma FetchedAsResolved(o: Options, locks: map<string, Locked>, root: Bundle, t: State, d: Dependency)
    requires Resolved(o, locks, root, t) && d.id in t.bundles && d.id != root.id
    requires Satisfies(t.bundles[d.id].version, d.constraint)
    ensures Fetch(o, locks, d) == Success(t.bundles[d.id])
  {
    assert IsLocked(o, locks, root, t.bundles[d.id]);
  }

  /** Nothing is wrong with a dependency that can be fetched. */
  lemma FetchableHasNoCause(o: Options, locks: map<string, Locked>, d: Dependency, e: ResolveError)
    requires Fetch(o, locks, d).Success?
    ensures !Unfetchable(o, locks, d, e)
  {
    FetchAnswers(o, locks, d);
    var b := Fetch(o, locks, d).value;
    if e.NoCompatibleVersion? && o.repository.Some? && d.id in o.repository.value.listed {
      ChosenSatisfies(o.repository.value.listed[d.id], d.constraint);
    }
  }

  lemma AdmittedHasNoCause(o: Options, locks: map<string, Locked>, b: Bundle, source: string, e: ResolveError)
    requires Admit(o, locks, b, source).None?
    ensures !Inadmissible(o, locks, b, source, e)
  {
  }

  lemma TrailInit(o: Options, locks: map<string, Locked>, root: Bundle, trail: seq<Bundle>)
    requires IsTrail(o, locks, root, trail) && |trail| > 1
    ensures IsTrail(o, locks, root, trail[..|trail| - 1]) && LeadsTo(o, locks, trail[|trail| - 2], LastOf(trail))
  {
    var init := trail[..|trail| - 1];
    forall i | 0 < i < |init|
      ensures LeadsTo(o, locks, init[i - 1], init[i])
    {
      assert LeadsTo(o, locks, trail[i - 1], trail[i]);
    }
    assert LeadsTo(o, locks, trail[|trail| - 1 - 1], trail[|trail| - 1]);
  }

  /** A trail stays in a resolved graph and goes down its order. */
  lemma {:induction false} TrailStays(o: Options, locks: map<string, Locked>, root: Bundle, t: State, trail: seq<Bundle>)
    returns (p: nat)
    requires Resolved(o, locks, root, t) && IsTrail(o, locks, root, trail)
    ensures p < |t.order| && t.order[p] == LastOf(trail).id && LastOf(trail).id in t.bundles
    ensures t.bundles[LastOf(trail).id] == LastOf(trail)
    ensures |trail| > 1 ==> LastOf(trail).id != root.id
    ensures forall b :: b in trail ==> b.id !in t.order[..p]
    decreases |trail|
  {
    if |trail| == 1 {
      p := |t.order| - 1;
      assert IsLocked(o, locks, root, t.bundles[root.id]);
      assert forall b :: b in trail ==> b == root;
    } else {
      TrailInit(o, locks, root, trail);
      var init := trail[..|trail| - 1];
      var above := TrailStays(o, locks, root, t, init);
      var d :| d in LastOf(init).dependencies && Fetch(o, locks, d) == Success(LastOf(trail));
      p := DependencyStands(o, locks, root, t, above, d);
      FetchedAsResolved(o, locks, root, t, d);
      OrderBelow(t.order, p, above);
      assert forall b :: b in trail ==> b in init || b == LastOf(trail);
    }
  }

  lemma OrderBelow(order: seq<string>, p: nat, above: nat)
    requires Distinct(order) && p <= above < |order|
    ensures order[p] !in order[..p] && forall id :: id in order[..p] ==> id in order[..above]
  {
    assert order[..above][..p] == order[..p];
  }

  lemma ResolvedHasNoCause(o: Options, locks: map<string, Locked>, root: Bundle, t: State, trail: seq<Bundle>, e: ResolveError)
    requires Resolved(o, locks, root, t) && IsTrail(o, locks, root, trail)
    ensures !CauseAt(o, locks, root, trail, e)
  {
    var p := TrailStays(o, locks, root, t, trail);
    var b := LastOf(trail);
    assert IsLocked(o, locks, root, t.bundles[b.id]);
    assert SourceOf(o, trail) == OriginOf(o, root, b.id);
    AdmittedHasNoCause(o, locks, b, SourceOf(o, trail), e);
    forall d | d in b.dependencies
      ensures !Unfetchable(o, locks, d, e) && !Clashes(o, locks, root, trail, d, e)
    {
      var q := DependencyStands(o, locks, root, t, p, d);
      FetchedAsResolved(o, locks, root, t, d);
      FetchableHasNoCause(o, locks, d, e);
      NoClash(o, locks, root, t, trail, p, q, d, e);
    }
  }

  lemma NoClash(
    o: Options, locks: map<string, Locked>, root: Bundle, t: State, trail: seq<Bundle>, p: nat, q: nat, d: Dependency, e: ResolveError)
    requires Resolved(o, locks, root, t) && q < p < |t.order| && t.order[q] == d.id && d.id in t.bundles
    requires Satisfies(t.bundles[d.id].version, d.constraint) && (forall b :: b in trail ==> b.id !in t.order[..p])
    ensures !Clashes(o, locks, root, trail, d, e)
  {
    assert t.order[..p][q] == d.id;
    forall b | Reached(o, locks, root, b) && b.id == d.id
      ensures Satisfies(b.version, d.constraint)
    {
      var other :| IsTrail(o, locks, root, other) && LastOf(other) == b;
      var _ := TrailStays(o, locks, root, t, other);
    }
  }

  /** With a lock a resolution succeeds exactly if the lock is well formed and nothing reached from the root is wrong. */
  lemma LockedExactly(o: Options, lock: Lock, root: Bundle)
    requires o.mode != Development
    ensures Resolve(o, lock, root).Success? <==>
            && lock.Some? && (forall id :: id in lock.value ==> lock.value[id].version != "" && lock.value[id].digest != "")
            && forall e :: !HasCause(o, lock.value, root, e)
  {
    if Resolve(o, lock, root).Success? {
      VisitResolves(o, lock.value, root);
      var t := Visit(o, lock.value, START, root, "root").value;
      forall e, trail | IsTrail(o, lock.value, root, trail)
        ensures !CauseAt(o, lock.value, root, trail, e)
      {
        ResolvedHasNoCause(o, lock.value, root, t, trail, e);
      }
    } else {
      FailuresHaveCauses(o, lock, root);
    }
  }
}
