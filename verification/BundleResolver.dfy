/**
 Dependency resolution of src/bundle_resolver.cpp: a recursive visit selects one
 version per bundle id, detects cycles, builds the dependency-first order, and
 produces or enforces a lock.

 The visit is a function on the four containers it mutates; the resolver class
 performs it in place. Signature verification is the predicate `trusted`, reading a
 bundle from the repository is a look-up, and lock text is already parsed JSON.
 */
module BundleResolver {
  import opened Base
  import opened SemVer

  datatype Dependency = Dependency(id: string, constraint: string)

  datatype Bundle = Bundle(id: string, version: string, digest: string, dependencies: seq<Dependency>)

  /** `stock` and `cache` hold what get returns with and without network access. */
  datatype Repository = Repository(
    source: string, listed: map<string, seq<string>>,
    stock: map<string, map<string, Bundle>>, cache: map<string, map<string, Bundle>>)

  datatype Mode = Development | Frozen | Verified | Offline

  datatype Locked = Locked(version: string, digest: string, source: string)

  datatype Options = Options(mode: Mode, repository: Option<Repository>, trusted: Bundle -> bool)

  /** The lock given to a resolution; None is the empty text. */
  type Lock = Option<map<string, Locked>>

  datatype ResolveError =
    | InvalidLockEntry | LockfileRequired | DependencyCycle | DependencyConflict
    | LockEntryRequired | LockMismatch | LockSourceMismatch | Untrusted
    | RepositoryRequired | LockConstraintMismatch | VersionsUnavailable | NoCompatibleVersion
    | BundleUnavailable | IdentityMismatch

  /** The containers one resolution mutates. */
  datatype State = State(selected: map<string, string>, active: set<string>, bundles: map<string, Bundle>, order: seq<string>)

  datatype Graph = Graph(root: string, bundles: map<string, Bundle>, order: seq<string>, lock: map<string, Locked>)

  predicate LockedMode(o: Options) {
    o.mode != Development
  }

  /** parse_lock: no text is no locks; an entry without version or digest is refused. */
  function ParseLock(lock: Lock): Result<map<string, Locked>, ResolveError> {
    match lock
    case None => Success(map[])
    case Some(entries) =>
      if exists id :: id in entries && (entries[id].version == "" || entries[id].digest == "")
      then Failure(InvalidLockEntry) else Success(entries)
  }

  function Shelf(o: Options): map<string, map<string, Bundle>> {
    match o.repository case None => map[] case Some(r) => if o.mode == Offline then r.cache else r.stock
  }

  /** The version of a dependency: the locked one, or the best one the repository lists. */
  function PickVersion(o: Options, locks: map<string, Locked>, d: Dependency): Result<string, ResolveError> {
    if o.repository.None? then Failure(RepositoryRequired)
    else if LockedMode(o) then
      if d.id !in locks then Failure(LockEntryRequired)
      else if !Satisfies(locks[d.id].version, d.constraint) then Failure(LockConstraintMismatch)
      else Success(locks[d.id].version)
    else if d.id !in o.repository.value.listed then Failure(VersionsUnavailable)
    else
      match Choose(o.repository.value.listed[d.id], d.constraint)
      case None => Failure(NoCompatibleVersion)
      case Some(v) => Success(v)
  }

  function Fetch(o: Options, locks: map<string, Locked>, d: Dependency): (r: Result<Bundle, ResolveError>)
    ensures r.Success? ==> r.value.id == d.id && d.id in Shelf(o)
  {
    match PickVersion(o, locks, d)
    case Failure(e) => Failure(e)
    case Success(version) =>
      if d.id !in Shelf(o) || version !in Shelf(o)[d.id] then Failure(BundleUnavailable)
      else
        var b := Shelf(o)[d.id][version];
        if b.id != d.id || b.version != version then Failure(IdentityMismatch) else Success(b)
  }

  /** The checks a bundle passes before it is selected. */
  function Admit(o: Options, locks: map<string, Locked>, b: Bundle, source: string): Option<ResolveError> {
    if LockedMode(o) && b.id !in locks then Some(LockEntryRequired)
    else if LockedMode(o) && (locks[b.id].version != b.version || locks[b.id].digest != b.digest) then Some(LockMismatch)
    else if LockedMode(o) && locks[b.id].source != "" && locks[b.id].source != source then Some(LockSourceMismatch)
    else if (o.mode == Verified || o.mode == Offline) && !o.trusted(b) then Some(Untrusted)
    else None
  }

  function Source(o: Options): string {
    match o.repository case None => "" case Some(r) => r.source
  }

  function Enter(s: State, b: Bundle): State {
    s.(selected := s.selected[b.id := b.version], active := s.active + {b.id}, bundles := s.bundles[b.id := b])
  }

  function Leave(s: State, id: string): State {
    s.(active := s.active - {id}, order := s.order + [id])
  }

  /** Ids the repository can still add: what bounds the depth of the visit. */
  function Room(o: Options, selected: set<string>): nat {
    |Shelf(o).Keys - selected|
  }

  lemma RoomShrinks(o: Options, a: set<string>, b: set<string>)
    requires a <= b
    ensures Room(o, b) <= Room(o, a)
    ensures (exists id :: id in Shelf(o) && id in b && id !in a) ==> Room(o, b) < Room(o, a)
  {
    var small, large := Shelf(o).Keys - b, Shelf(o).Keys - a;
    assert small <= large;
    SubsetSize(small, large);
    if id :| id in Shelf(o) && id in b && id !in a {
      SubsetSize(small, large - {id});
    }
  }

  lemma {:induction false} SubsetSize(a: set<string>, b: set<string>)
    requires a <= b
    ensures |a| <= |b|
  {
    if a != {} {
      var x :| x in a;
      SubsetSize(a - {x}, b - {x});
    }
  }

  function Visit(o: Options, locks: map<string, Locked>, s: State, b: Bundle, source: string): (r: Result<State, ResolveError>)
    ensures r.Success? ==> s.selected.Keys <= r.value.selected.Keys
    decreases Room(o, s.selected.Keys + {b.id}), |b.dependencies| + 1
  {
    if b.id in s.active then Failure(DependencyCycle)
    else if b.id in s.selected then
      if s.selected[b.id] != b.version then Failure(DependencyConflict) else Success(s)
    else
      match Admit(o, locks, b, source)
      case Some(e) => Failure(e)
      case None =>
        assert Enter(s, b).selected.Keys == s.selected.Keys + {b.id};
        match VisitAll(o, locks, Enter(s, b), b.dependencies)
        case Failure(e) => Failure(e)
        case Success(t) => Success(Leave(t, b.id))
  }

  /** The loop over the dependencies of the bundle being visited. */
  function VisitAll(o: Options, locks: map<string, Locked>, s: State, ds: seq<Dependency>): (r: Result<State, ResolveError>)
    ensures r.Success? ==> s.selected.Keys <= r.value.selected.Keys
    decreases Room(o, s.selected.Keys), |ds|
  {
    if ds == [] then Success(s)
    else
      match VisitOne(o, locks, s, ds[0])
      case Failure(e) => Failure(e)
      case Success(t) =>
        RoomShrinks(o, s.selected.Keys, t.selected.Keys);
        VisitAll(o, locks, t, ds[1..])
  }

  function VisitOne(o: Options, locks: map<string, Locked>, s: State, d: Dependency): (r: Result<State, ResolveError>)
    ensures r.Success? ==> s.selected.Keys <= r.value.selected.Keys
    decreases Room(o, s.selected.Keys), 0
  {
    if d.id in s.active then Failure(DependencyCycle)
    else if d.id in s.selected then
      if !Satisfies(s.selected[d.id], d.constraint) then Failure(DependencyConflict) else Success(s)
    else
      match Fetch(o, locks, d)
      case Failure(e) => Failure(e)
      case Success(b) =>
        RoomShrinks(o, s.selected.Keys, s.selected.Keys + {b.id});
        Visit(o, locks, s, b, Source(o))
  }

  /** A visit of a new id: the checks, then its dependencies. */
  lemma VisitNew(o: Options, locks: map<string, Locked>, s: State, b: Bundle, source: string)
    requires b.id !in s.selected && b.id !in s.active
    ensures Enter(s, b).selected.Keys == s.selected.Keys + {b.id}
    ensures Visit(o, locks, s, b, source) ==
            match Admit(o, locks, b, source)
            case Some(e) => Failure(e)
            case None =>
              match VisitAll(o, locks, Enter(s, b), b.dependencies)
              case Failure(e) => Failure(e)
              case Success(t) => Success(Leave(t, b.id))
  {
  }

  const START := State(map[], {}, map[], [])

  function LockOf(o: Options, root: string, bundles: map<string, Bundle>): map<string, Locked> {
    map id | id in bundles :: Locked(bundles[id].version, bundles[id].digest, if id == root then "root" else Source(o))
  }

  function Resolve(o: Options, lock: Lock, root: Bundle): Result<Graph, ResolveError> {
    match ParseLock(lock)
    case Failure(e) => Failure(e)
    case Success(locks) =>
      if LockedMode(o) && lock.None? then Failure(LockfileRequired)
      else
        match Visit(o, locks, START, root, "root")
        case Failure(e) => Failure(e)
        case Success(t) => Success(Graph(root.id, t.bundles, t.order, LockOf(o, root.id, t.bundles)))
  }

  // ---------------------------------------------------------------- resolver

  class Resolver {
    const options: Options
    const locks: map<string, Locked>
    var selected: map<string, string>
    var active: set<string>
    var bundles: map<string, Bundle>
    var order: seq<string>

    ghost function View(): State
      reads this
    {
      State(selected, active, bundles, order)
    }

    constructor (options: Options, locks: map<string, Locked>)
      ensures View() == START && this.options == options && this.locks == locks
    {
      this.options, this.locks := options, locks;
      selected, active, bundles, order := map[], {}, map[], [];
    }

    /** One visit; a failure is the exception that abandons the resolution. */
    method VisitBundle(b: Bundle, source: string) returns (failure: Option<ResolveError>)
      modifies this
      ensures match Visit(options, locks, old(View()), b, source)
              case Failure(e) => failure == Some(e)
              case Success(t) => failure == None && View() == t
      decreases Room(options, selected.Keys + {b.id}), |b.dependencies| + 1
    {
      if b.id in active {
        return Some(DependencyCycle);
      }
      if b.id in selected {
        return if selected[b.id] != b.version then Some(DependencyConflict) else None;
      }
      VisitNew(options, locks, View(), b, source);
      failure := Admit(options, locks, b, source);
      if failure.Some? {
        return;
      }
      active, selected, bundles := active + {b.id}, selected[b.id := b.version], bundles[b.id := b];
      assert View() == Enter(old(View()), b) && selected.Keys == old(selected.Keys) + {b.id};
      failure := VisitDependencies(b.dependencies);
      if failure.None? {
        active, order := active - {b.id}, order + [b.id];
      }
    }

    method VisitDependencies(ds: seq<Dependency>) returns (failure: Option<ResolveError>)
      modifies this
      ensures match VisitAll(options, locks, old(View()), ds)
              case Failure(e) => failure == Some(e)
              case Success(t) => failure == None && View() == t
      decreases Room(options, selected.Keys), |ds|
    {
      ghost var all := VisitAll(options, locks, View(), ds);
      assert ds[0..] == ds;
      for i := 0 to |ds|
        invariant VisitAll(options, locks, View(), ds[i..]) == all
        invariant old(selected.Keys) <= selected.Keys
      {
        assert ds[i..][0] == ds[i] && ds[i..][1..] == ds[i + 1..];
        RoomShrinks(options, old(selected.Keys), selected.Keys);
        failure := VisitDependency(ds[i]);
        if failure.Some? {
          return;
        }
      }
      failure := None;
    }

    method VisitDependency(d: Dependency) returns (failure: Option<ResolveError>)
      modifies this
      ensures match VisitOne(options, locks, old(View()), d)
              case Failure(e) => failure == Some(e)
              case Success(t) => failure == None && View() == t
      decreases Room(options, selected.Keys), 0
    {
      if d.id in active {
        return Some(DependencyCycle);
      }
      if d.id in selected {
        var holds := CheckSatisfies(selected[d.id], d.constraint);
        return if holds then None else Some(DependencyConflict);
      }
      var fetched := Fetch(options, locks, d);
      if fetched.Failure? {
        return Some(fetched.error);
      }
      RoomShrinks(options, selected.Keys, selected.Keys + {d.id});
      failure := VisitBundle(fetched.value, Source(options));
    }
  }

  method ResolveBundle(o: Options, lock: Lock, root: Bundle) returns (answer: Result<Graph, ResolveError>)
    ensures answer == Resolve(o, lock, root)
  {
    var parsed := ParseLock(lock);
    if parsed.Failure? {
      return Failure(parsed.error);
    }
    if LockedMode(o) && lock.None? {
      return Failure(LockfileRequired);
    }
    var resolver := new Resolver(o, parsed.value);
    var failure := resolver.VisitBundle(root, "root");
    if failure.Some? {
      return Failure(failure.value);
    }
    answer := Success(Graph(root.id, resolver.bundles, resolver.order, LockOf(o, root.id, resolver.bundles)));
  }

  // ---------------------------------------------------------------- well-formed graphs

  ghost predicate Distinct(ids: seq<string>) {
    forall i, j :: 0 <= i < j < |ids| ==> ids[i] != ids[j]
  }

  ghost predicate Meets(bundles: map<string, Bundle>, d: Dependency) {
    d.id in bundles && Satisfies(bundles[d.id].version, d.constraint)
  }

  /** Every dependency of the i-th bundle in the order stands before it and satisfies the constraint. */
  ghost predicate Settled(bundles: map<string, Bundle>, order: seq<string>, i: nat)
    requires i < |order|
  {
    order[i] in bundles
    && forall d :: d in bundles[order[i]].dependencies ==> d.id in order[..i] && Meets(bundles, d)
  }

  ghost predicate Tidy(s: State) {
    && s.selected.Keys == s.bundles.Keys
    && (forall id :: id in s.bundles ==> s.bundles[id].id == id && s.selected[id] == s.bundles[id].version)
    && (forall id :: id in s.order <==> id in s.bundles && id !in s.active)
    && s.active <= s.bundles.Keys
  }

  ghost predicate Sorted(s: State) {
    Distinct(s.order) && forall i :: 0 <= i < |s.order| ==> Settled(s.bundles, s.order, i)
  }

  ghost predicate Good(s: State) {
    Tidy(s) && Sorted(s)
  }

  /** `t` keeps everything `s` had; every bundle it adds, other than `id`, has a version text. */
  ghost predicate Extends(s: State, t: State, ids: set<string>) {
    && s.active == t.active && s.order <= t.order
    && (forall id :: id in s.bundles ==> id in t.bundles && t.bundles[id] == s.bundles[id])
    && (forall id :: id in t.bundles ==> id in s.bundles || id in ids || t.bundles[id].version != "")
  }

  lemma EnterGood(s: State, b: Bundle)
    requires Good(s) && b.id !in s.selected
    ensures Good(Enter(s, b))
  {
    var t := Enter(s, b);
    forall i | 0 <= i < |t.order|
      ensures Settled(t.bundles, t.order, i)
    {
      assert Settled(s.bundles, s.order, i);
      assert s.order[i] in s.order;
    }
  }

  lemma LeaveGood(s: State, t: State, b: Bundle)
    requires Good(s) && b.id !in s.selected && Good(t) && Extends(Enter(s, b), t, {})
    requires forall d :: d in b.dependencies ==> d.id in t.order && Meets(t.bundles, d)
    ensures Good(Leave(t, b.id)) && Extends(s, Leave(t, b.id), {b.id})
  {
    var u := Leave(t, b.id);
    assert b.id in Enter(s, b).bundles;
    assert Sorted(u) by {
      forall i | 0 <= i < |u.order|
        ensures Settled(u.bundles, u.order, i)
      {
        if i < |t.order| {
          assert Settled(t.bundles, t.order, i);
          assert u.order[..i] == t.order[..i];
        } else {
          assert u.order[..i] == t.order;
        }
      }
    }
    assert Extends(s, u, {b.id}) by {
      assert u.active == s.active;
    }
  }

  lemma NoVersionText()
    ensures ParseVersion("").None?
  {
  }

  lemma FetchMeets(o: Options, locks: map<string, Locked>, d: Dependency)
    requires Fetch(o, locks, d).Success?
    ensures Satisfies(Fetch(o, locks, d).value.version, d.constraint) && Fetch(o, locks, d).value.version != ""
  {
    NoVersionText();
    if !LockedMode(o) {
      ChosenSatisfies(o.repository.value.listed[d.id], d.constraint);
    }
  }

  lemma {:induction false} VisitGood(o: Options, locks: map<string, Locked>, s: State, b: Bundle, source: string)
    requires Good(s) && Visit(o, locks, s, b, source).Success?
    ensures var t := Visit(o, locks, s, b, source).value;
            && Good(t) && Extends(s, t, {b.id}) && b.id in t.order
            && (b.id !in s.selected ==> b.id in t.bundles && t.bundles[b.id] == b && t.order[|t.order| - 1] == b.id)
    decreases Room(o, s.selected.Keys + {b.id}), |b.dependencies| + 1
  {
    if b.id !in s.selected {
      EnterGood(s, b);
      assert Enter(s, b).selected.Keys == s.selected.Keys + {b.id};
      VisitAllGood(o, locks, Enter(s, b), b.dependencies);
      LeaveGood(s, VisitAll(o, locks, Enter(s, b), b.dependencies).value, b);
      assert b.id in Enter(s, b).bundles;
    }
  }

  lemma {:induction false} VisitAllGood(o: Options, locks: map<string, Locked>, s: State, ds: seq<Dependency>)
    requires Good(s) && VisitAll(o, locks, s, ds).Success?
    ensures var t := VisitAll(o, locks, s, ds).value;
            && Good(t) && Extends(s, t, {})
            && forall d :: d in ds ==> d.id in t.order && Meets(t.bundles, d)
    decreases Room(o, s.selected.Keys), |ds|
  {
    if ds != [] {
      VisitOneGood(o, locks, s, ds[0]);
      var t := VisitOne(o, locks, s, ds[0]).value;
      RoomShrinks(o, s.selected.Keys, t.selected.Keys);
      VisitAllGood(o, locks, t, ds[1..]);
      assert forall d :: d in ds ==> d == ds[0] || d in ds[1..];
    }
  }

  lemma {:induction false} VisitOneGood(o: Options, locks: map<string, Locked>, s: State, d: Dependency)
    requires Good(s) && VisitOne(o, locks, s, d).Success?
    ensures var t := VisitOne(o, locks, s, d).value;
            Good(t) && Extends(s, t, {}) && d.id in t.order && Meets(t.bundles, d)
    decreases Room(o, s.selected.Keys), 0
  {
    if d.id !in s.selected {
      var b := Fetch(o, locks, d).value;
      FetchMeets(o, locks, d);
      RoomShrinks(o, s.selected.Keys, s.selected.Keys + {b.id});
      VisitGood(o, locks, s, b, Source(o));
    }
  }

  /**
   A successful resolution is an acyclic graph: the order lists every bundle once,
   the root last and every dependency before its dependents; each id has one bundle,
   and it satisfies the constraint of every dependent.
   */
  lemma ResolvedGraphIsSorted(o: Options, lock: Lock, root: Bundle)
    requires Resolve(o, lock, root).Success?
    ensures var g := Resolve(o, lock, root).value;
            && root.id in g.bundles && g.bundles[root.id] == root && g.root == root.id
            && |g.order| > 0 && g.order[|g.order| - 1] == root.id && Distinct(g.order)
            && (forall id :: id in g.order <==> id in g.bundles)
            && (forall id :: id in g.bundles ==> g.bundles[id].id == id)
            && (forall i :: 0 <= i < |g.order| ==> Settled(g.bundles, g.order, i))
  {
    VisitGood(o, ParseLock(lock).value, START, root, "root");
  }

  ghost predicate DependsOn(bundles: map<string, Bundle>, a: string, b: string) {
    a in bundles && exists d :: d in bundles[a].dependencies && d.id == b
  }

  /** Each id depends on the next. */
  ghost predicate IsChain(bundles: map<string, Bundle>, chain: seq<string>) {
    |chain| <= 1 || (DependsOn(bundles, chain[0], chain[1]) && IsChain(bundles, chain[1..]))
  }

  /** Following dependencies from a bundle of the graph never leads back to it. */
  lemma ResolvedGraphHasNoCycle(o: Options, lock: Lock, root: Bundle, chain: seq<string>)
    requires Resolve(o, lock, root).Success? && |chain| >= 2
    requires IsChain(Resolve(o, lock, root).value.bundles, chain)
    ensures chain[0] != chain[|chain| - 1]
  {
    ResolvedGraphIsSorted(o, lock, root);
    var g := Resolve(o, lock, root).value;
    var p :| 0 <= p < |g.order| && g.order[p] == chain[0];
    ChainFalls(g.bundles, g.order, chain, p);
  }

  lemma {:induction false} ChainFalls(bundles: map<string, Bundle>, order: seq<string>, chain: seq<string>, p: nat)
    requires forall i :: 0 <= i < |order| ==> Settled(bundles, order, i)
    requires IsChain(bundles, chain) && |chain| >= 2 && p < |order| && order[p] == chain[0]
    ensures chain[|chain| - 1] in order[..p]
  {
    var q := DependencyBelow(bundles, order, p, chain[1]);
    if |chain| > 2 {
      ChainFalls(bundles, order, chain[1..], q);
      assert order[..p][..q] == order[..q];
    }
  }

  lemma DependencyBelow(bundles: map<string, Bundle>, order: seq<string>, p: nat, id: string) returns (q: nat)
    requires p < |order| && Settled(bundles, order, p) && DependsOn(bundles, order[p], id)
    ensures q < p && order[q] == id && id in order[..p]
  {
    q :| 0 <= q < p && order[..p][q] == id;
  }

  // ---------------------------------------------------------------- locks

  /** The lock entry of `b` says what the lock of a resolution rooted at `root` says about it. */
  ghost predicate Pinned(locks: map<string, Locked>, b: Bundle, root: string, source: string) {
    b.id in locks && locks[b.id] == Locked(b.version, b.digest, if b.id == root then "root" else source)
  }

  ghost predicate AllPinned(locks: map<string, Locked>, bundles: map<string, Bundle>, root: string, source: string) {
    forall id :: id in bundles ==> Pinned(locks, bundles[id], root, source)
  }

  lemma PinnedIsAdmitted(o: Options, locks: map<string, Locked>, b: Bundle, root: string, source: string)
    requires o.mode == Frozen && Pinned(locks, b, root, Source(o))
    requires source == (if b.id == root then "root" else Source(o))
    ensures Admit(o, locks, b, source).None?
  {
  }

  lemma PinnedIsFetched(dev: Options, free: map<string, Locked>, locks: map<string, Locked>, d: Dependency, b: Bundle, root: string)
    requires dev.mode == Development && Fetch(dev, free, d) == Success(b) && Pinned(locks, b, root, Source(dev))
    ensures Fetch(dev.(mode := Frozen), locks, d) == Success(b)
  {
    FetchMeets(dev, free, d);
  }

  /** A Development visit can be repeated under any lock that pins what it selected. */
  lemma {:induction false} VisitRepeats(
    dev: Options, free: map<string, Locked>, locks: map<string, Locked>, s: State, b: Bundle, source: string, root: string)
    requires dev.mode == Development && Good(s) && Visit(dev, free, s, b, source).Success?
    requires AllPinned(locks, Visit(dev, free, s, b, source).value.bundles, root, Source(dev))
    requires source == (if b.id == root then "root" else Source(dev)) && (root in s.selected || b.id == root)
    ensures Visit(dev.(mode := Frozen), locks, s, b, source) == Visit(dev, free, s, b, source)
    decreases Room(dev, s.selected.Keys + {b.id}), |b.dependencies| + 1
  {
    if b.id !in s.selected {
      VisitedIsStored(dev, free, s, b, source);
      EnterGood(s, b);
      PinnedIsAdmitted(dev.(mode := Frozen), locks, b, root, source);
      VisitNew(dev, free, s, b, source);
      VisitNew(dev.(mode := Frozen), locks, s, b, source);
      VisitAllRepeats(dev, free, locks, Enter(s, b), b.dependencies, root);
    }
  }

  lemma VisitedIsStored(o: Options, locks: map<string, Locked>, s: State, b: Bundle, source: string)
    requires Good(s) && Visit(o, locks, s, b, source).Success? && b.id !in s.selected
    ensures var t := Visit(o, locks, s, b, source).value;
            b.id in t.bundles && t.bundles[b.id] == b
  {
    VisitGood(o, locks, s, b, source);
  }

  lemma {:induction false} VisitAllRepeats(
    dev: Options, free: map<string, Locked>, locks: map<string, Locked>, s: State, ds: seq<Dependency>, root: string)
    requires dev.mode == Development && Good(s) && VisitAll(dev, free, s, ds).Success?
    requires AllPinned(locks, VisitAll(dev, free, s, ds).value.bundles, root, Source(dev)) && root in s.selected
    ensures VisitAll(dev.(mode := Frozen), locks, s, ds) == VisitAll(dev, free, s, ds)
    decreases Room(dev, s.selected.Keys), |ds|
  {
    if ds != [] {
      var t := VisitOne(dev, free, s, ds[0]).value;
      VisitOneGood(dev, free, s, ds[0]);
      RoomShrinks(dev, s.selected.Keys, t.selected.Keys);
      VisitAllGood(dev, free, t, ds[1..]);
      VisitOneRepeats(dev, free, locks, s, ds[0], root);
      VisitAllRepeats(dev, free, locks, t, ds[1..], root);
    }
  }

  lemma {:induction false} VisitOneRepeats(
    dev: Options, free: map<string, Locked>, locks: map<string, Locked>, s: State, d: Dependency, root: string)
    requires dev.mode == Development && Good(s) && VisitOne(dev, free, s, d).Success?
    requires AllPinned(locks, VisitOne(dev, free, s, d).value.bundles, root, Source(dev)) && root in s.selected
    ensures VisitOne(dev.(mode := Frozen), locks, s, d) == VisitOne(dev, free, s, d)
    decreases Room(dev, s.selected.Keys), 0
  {
    if d.id !in s.selected {
      var b := Fetch(dev, free, d).value;
      RoomShrinks(dev, s.selected.Keys, s.selected.Keys + {b.id});
      VisitGood(dev, free, s, b, Source(dev));
      PinnedIsFetched(dev, free, locks, d, b, root);
      VisitRepeats(dev, free, locks, s, b, Source(dev), root);
    }
  }

  /**
   Lock reproducibility: Frozen resolution with the lock a Development resolution
   produced gives the same bundles, order and lock, exactly when the root has a
   version text (an entry without one is refused when the lock is read).
   */
  lemma LockReproduces(o: Options, lock: Lock, root: Bundle)
    requires o.mode == Development && Resolve(o, lock, root).Success?
    requires forall id :: id in Resolve(o, lock, root).value.bundles ==> Resolve(o, lock, root).value.bundles[id].digest != ""
    ensures var g := Resolve(o, lock, root).value;
            Resolve(o.(mode := Frozen), Some(g.lock), root) ==
            if root.version == "" then Failure(InvalidLockEntry) else Success(g)
  {
    var g := Resolve(o, lock, root).value;
    VersionTexts(o, lock, root);
    if root.version == "" {
      assert root.id in g.lock && g.lock[root.id].version == "";
    } else {
      LockParses(o, root.id, g.bundles);
      FrozenVisits(o, ParseLock(lock).value, root);
      assert LockOf(o.(mode := Frozen), root.id, g.bundles) == g.lock;
    }
  }

  lemma VersionTexts(o: Options, lock: Lock, root: Bundle)
    requires Resolve(o, lock, root).Success?
    ensures var g := Resolve(o, lock, root).value;
            && root.id in g.bundles && g.bundles[root.id] == root
            && forall id :: id in g.bundles && id != root.id ==> g.bundles[id].version != ""
  {
    VisitGood(o, ParseLock(lock).value, START, root, "root");
  }

  lemma LockParses(o: Options, root: string, bundles: map<string, Bundle>)
    requires forall id :: id in bundles ==> bundles[id].version != "" && bundles[id].digest != ""
    ensures ParseLock(Some(LockOf(o, root, bundles))) == Success(LockOf(o, root, bundles))
  {
  }

  lemma BundlesKeepIds(o: Options, free: map<string, Locked>, root: Bundle)
    requires Visit(o, free, START, root, "root").Success?
    ensures var t := Visit(o, free, START, root, "root").value;
            forall id :: id in t.bundles ==> t.bundles[id].id == id
  {
    VisitGood(o, free, START, root, "root");
  }

  /** The lock made of a graph pins every bundle of it. */
  lemma LockPins(o: Options, root: string, bundles: map<string, Bundle>)
    requires forall id :: id in bundles ==> bundles[id].id == id
    ensures AllPinned(LockOf(o, root, bundles), bundles, root, Source(o))
  {
  }

  lemma FrozenVisits(o: Options, free: map<string, Locked>, root: Bundle)
    requires o.mode == Development && Visit(o, free, START, root, "root").Success?
    ensures var t := Visit(o, free, START, root, "root").value;
            Visit(o.(mode := Frozen), LockOf(o, root.id, t.bundles), START, root, "root") == Success(t)
  {
    var t := Visit(o, free, START, root, "root").value;
    BundlesKeepIds(o, free, root);
    LockPins(o, root.id, t.bundles);
    VisitRepeats(o, free, LockOf(o, root.id, t.bundles), START, root, "root", root.id);
  }

  // ---------------------------------------------------------------- enforcement

  /** Every bundle `t` has beyond `s` passed the checks of its mode. */
  ghost predicate Enforced(o: Options, locks: map<string, Locked>, s: map<string, Bundle>, t: map<string, Bundle>) {
    forall id :: id in t && id !in s ==>
      && id in locks && locks[id].version == t[id].version && locks[id].digest == t[id].digest
      && (o.mode != Frozen ==> o.trusted(t[id]))
  }

  lemma AdmittedIsLocked(o: Options, locks: map<string, Locked>, b: Bundle, source: string)
    requires LockedMode(o) && Admit(o, locks, b, source).None?
    ensures b.id in locks && locks[b.id].version == b.version && locks[b.id].digest == b.digest
    ensures o.mode != Frozen ==> o.trusted(b)
  {
  }

  lemma {:induction false} VisitEnforces(o: Options, locks: map<string, Locked>, s: State, b: Bundle, source: string)
    requires LockedMode(o) && Good(s) && Visit(o, locks, s, b, source).Success?
    ensures Enforced(o, locks, s.bundles, Visit(o, locks, s, b, source).value.bundles)
    decreases Room(o, s.selected.Keys + {b.id}), |b.dependencies| + 1
  {
    if b.id !in s.selected {
      VisitedIsStored(o, locks, s, b, source);
      EnterGood(s, b);
      VisitNew(o, locks, s, b, source);
      VisitAllEnforces(o, locks, Enter(s, b), b.dependencies);
      AdmittedIsLocked(o, locks, b, source);
    }
  }

  lemma {:induction false} VisitAllEnforces(o: Options, locks: map<string, Locked>, s: State, ds: seq<Dependency>)
    requires LockedMode(o) && Good(s) && VisitAll(o, locks, s, ds).Success?
    ensures Enforced(o, locks, s.bundles, VisitAll(o, locks, s, ds).value.bundles)
    decreases Room(o, s.selected.Keys), |ds|
  {
    if ds != [] {
      var t := VisitOne(o, locks, s, ds[0]).value;
      VisitOneGood(o, locks, s, ds[0]);
      VisitOneEnforces(o, locks, s, ds[0]);
      RoomShrinks(o, s.selected.Keys, t.selected.Keys);
      VisitAllGood(o, locks, t, ds[1..]);
      VisitAllEnforces(o, locks, t, ds[1..]);
    }
  }

  lemma {:induction false} VisitOneEnforces(o: Options, locks: map<string, Locked>, s: State, d: Dependency)
    requires LockedMode(o) && Good(s) && VisitOne(o, locks, s, d).Success?
    ensures Enforced(o, locks, s.bundles, VisitOne(o, locks, s, d).value.bundles)
    decreases Room(o, s.selected.Keys), 0
  {
    if d.id !in s.selected {
      var b := Fetch(o, locks, d).value;
      RoomShrinks(o, s.selected.Keys, s.selected.Keys + {b.id});
      VisitEnforces(o, locks, s, b, Source(o));
    }
  }

  /** Every bundle of a locked resolution has exactly the locked version and digest; outside Frozen it is trusted too. */
  lemma LockIsEnforced(o: Options, lock: Lock, root: Bundle)
    requires LockedMode(o) && Resolve(o, lock, root).Success?
    ensures lock.Some?
    ensures forall id :: id in Resolve(o, lock, root).value.bundles ==>
              var b := Resolve(o, lock, root).value.bundles[id];
              && id in lock.value && lock.value[id].version == b.version && lock.value[id].digest == b.digest
              && (o.mode != Frozen ==> o.trusted(b))
  {
    VisitEnforces(o, ParseLock(lock).value, START, root, "root");
  }

  ghost predicate NewTrusted(o: Options, s: map<string, Bundle>, t: map<string, Bundle>) {
    forall id :: id in t && id !in s ==> o.trusted(t[id])
  }

  lemma {:induction false} VisitVerifies(o: Options, locks: map<string, Locked>, s: State, b: Bundle, source: string)
    requires o.mode == Frozen && Good(s) && Visit(o, locks, s, b, source).Success?
    requires NewTrusted(o, s.bundles, Visit(o, locks, s, b, source).value.bundles)
    ensures Visit(o.(mode := Verified), locks, s, b, source) == Visit(o, locks, s, b, source)
    decreases Room(o, s.selected.Keys + {b.id}), |b.dependencies| + 1
  {
    if b.id !in s.selected {
      VisitedIsStored(o, locks, s, b, source);
      EnterGood(s, b);
      VisitNew(o, locks, s, b, source);
      VisitNew(o.(mode := Verified), locks, s, b, source);
      assert o.trusted(b);
      VisitAllVerifies(o, locks, Enter(s, b), b.dependencies);
    }
  }

  lemma {:induction false} VisitAllVerifies(o: Options, locks: map<string, Locked>, s: State, ds: seq<Dependency>)
    requires o.mode == Frozen && Good(s) && VisitAll(o, locks, s, ds).Success?
    requires NewTrusted(o, s.bundles, VisitAll(o, locks, s, ds).value.bundles)
    ensures VisitAll(o.(mode := Verified), locks, s, ds) == VisitAll(o, locks, s, ds)
    decreases Room(o, s.selected.Keys), |ds|
  {
    if ds != [] {
      var t := VisitOne(o, locks, s, ds[0]).value;
      VisitOneGood(o, locks, s, ds[0]);
      RoomShrinks(o, s.selected.Keys, t.selected.Keys);
      VisitAllGood(o, locks, t, ds[1..]);
      VisitOneVerifies(o, locks, s, ds[0]);
      VisitAllVerifies(o, locks, t, ds[1..]);
    }
  }

  lemma FetchIgnoresTrust(o: Options, locks: map<string, Locked>, d: Dependency)
    requires o.mode == Frozen
    ensures Fetch(o.(mode := Verified), locks, d) == Fetch(o, locks, d)
  {
  }

  lemma {:induction false} VisitOneVerifies(o: Options, locks: map<string, Locked>, s: State, d: Dependency)
    requires o.mode == Frozen && Good(s) && VisitOne(o, locks, s, d).Success?
    requires NewTrusted(o, s.bundles, VisitOne(o, locks, s, d).value.bundles)
    ensures VisitOne(o.(mode := Verified), locks, s, d) == VisitOne(o, locks, s, d)
    decreases Room(o, s.selected.Keys), 0
  {
    if d.id !in s.selected {
      var b := Fetch(o, locks, d).value;
      RoomShrinks(o, s.selected.Keys, s.selected.Keys + {b.id});
      FetchIgnoresTrust(o, locks, d);
      VisitVerifies(o, locks, s, b, Source(o));
    }
  }

  /** Whatever Frozen accepts, Verified accepts with the same graph exactly when every bundle in it is trusted. */
  lemma VerifiedIsFrozenAndTrusted(o: Options, lock: Lock, root: Bundle)
    requires o.mode == Frozen && Resolve(o, lock, root).Success?
    ensures Resolve(o.(mode := Verified), lock, root) == Resolve(o, lock, root) <==>
            forall id :: id in Resolve(o, lock, root).value.bundles ==> o.trusted(Resolve(o, lock, root).value.bundles[id])
  {
    var g := Resolve(o, lock, root).value;
    var v := o.(mode := Verified);
    if forall id :: id in g.bundles ==> o.trusted(g.bundles[id]) {
      VisitVerifies(o, ParseLock(lock).value, START, root, "root");
      assert LockOf(v, root.id, g.bundles) == LockOf(o, root.id, g.bundles);
    } else if Resolve(v, lock, root) == Success(g) {
      LockIsEnforced(v, lock, root);
      assert false;
    }
  }
}
