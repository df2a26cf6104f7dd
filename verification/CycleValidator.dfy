/**
 The cycle check of Engine::validate (src/dage.cpp): a depth-first search over
 next and on_error edges that reports an edge back onto the current path unless
 the edge declares a loop or a positive max_hits.
 */
module CycleValidator {

  datatype Edge = Edge(to: string, hasLoop: bool, maxHits: int)
  datatype Node = Node(next: seq<Edge>, onError: seq<Edge>)
  type Graph = map<string, Node>

  datatype Field = Next | OnError

  /** UNDECLARED_CYCLE at /nodes/<node>/<field>. */
  datatype Diagnostic = UndeclaredCycle(node: string, field: Field)

  predicate Bounded(e: Edge) {
    e.hasLoop || e.maxHits >= 1
  }

  function Out(g: Graph, id: string): seq<Edge>
    requires id in g
  {
    g[id].next + g[id].onError
  }

  // ---------------------------------------------------------------- specification

  /** Diagnostics of the search from `id` when `active` is the path above it. */
  ghost function Search(g: Graph, id: string, active: set<string>): seq<Diagnostic>
    requires id in g && id !in active
    decreases g.Keys - active, 0
  {
    SearchEdges(g, id, Next, g[id].next, active + {id})
    + SearchEdges(g, id, OnError, g[id].onError, active + {id})
  }

  ghost function SearchEdges(g: Graph, id: string, field: Field, edges: seq<Edge>, active: set<string>): seq<Diagnostic>
    decreases g.Keys - active, |edges|
  {
    if edges == [] then []
    else
      var e := edges[|edges| - 1];
      SearchEdges(g, id, field, edges[..|edges| - 1], active)
      + if e.to in active && !Bounded(e) then [UndeclaredCycle(id, field)]
        else if e.to in g && e.to !in active then Search(g, e.to, active)
        else []
  }

  // ---------------------------------------------------------------- the search

  class Validator {
    const graph: Graph
    var active: set<string>
    var diagnostics: seq<Diagnostic>

    constructor (graph: Graph)
      ensures this.graph == graph && active == {} && diagnostics == []
    {
      this.graph := graph;
      active, diagnostics := {}, [];
    }

    /** The recursive dfs lambda: path bookkeeping is undone on the way out. */
    method Dfs(id: string)
      requires id in graph && id !in active
      modifies this
      ensures active == old(active)
      ensures diagnostics == old(diagnostics) + Search(graph, id, old(active))
      decreases graph.Keys - active, 1, 0
    {
      active := active + {id};
      DfsField(id, Next, graph[id].next);
      DfsField(id, OnError, graph[id].onError);
      active := active - {id};
    }

    method DfsField(id: string, field: Field, edges: seq<Edge>)
      modifies this
      ensures active == old(active)
      ensures diagnostics == old(diagnostics) + SearchEdges(graph, id, field, edges, old(active))
      decreases graph.Keys - active, 2, 0
    {
      ghost var path := active;
      for j := 0 to |edges|
        invariant active == path
        invariant diagnostics == old(diagnostics) + SearchEdges(graph, id, field, edges[..j], path)
      {
        assert edges[..j + 1][..j] == edges[..j];
        var e := edges[j];
        if e.to in active && !Bounded(e) {
          diagnostics := diagnostics + [UndeclaredCycle(id, field)];
        } else if e.to in graph && e.to !in active {
          Dfs(e.to);
        }
      }
      assert edges[..|edges|] == edges;
    }

    /** The check as validate runs it: nothing is searched without a known entry. */
    method Check(entry: string)
      requires active == {} && diagnostics == []
      modifies this
      ensures active == {}
      ensures diagnostics == [] <==> Clean(graph, entry)
    {
      if entry in graph {
        Dfs(entry);
      }
    }
  }

  ghost predicate Clean(g: Graph, entry: string) {
    entry in g ==> Search(g, entry, {}) == []
  }

  // ---------------------------------------------------------------- walks

  ghost predicate Step(g: Graph, u: string, v: string) {
    u in g && v in g && exists e :: e in Out(g, u) && e.to == v
  }

  /** An edge that declares no bound. */
  ghost predicate FreeStep(g: Graph, u: string, v: string) {
    u in g && v in g && exists e :: e in Out(g, u) && e.to == v && !Bounded(e)
  }

  ghost predicate IsWalk(g: Graph, p: seq<string>) {
    && |p| >= 1 && p[0] in g
    && forall i :: 0 <= i < |p| - 1 ==> Step(g, p[i], p[i + 1])
  }

  ghost predicate IsFreeWalk(g: Graph, p: seq<string>) {
    && |p| >= 1 && p[0] in g
    && forall i :: 0 <= i < |p| - 1 ==> FreeStep(g, p[i], p[i + 1])
  }

  ghost predicate Simple(p: seq<string>) {
    forall i, j :: 0 <= i < j < |p| ==> p[i] != p[j]
  }

  ghost predicate Avoids(p: seq<string>, nodes: set<string>) {
    forall i :: 0 <= i < |p| ==> p[i] !in nodes
  }

  function Last(p: seq<string>): string
    requires |p| >= 1
  {
    p[|p| - 1]
  }

  // ---------------------------------------------------------------- exactness of the search

  lemma {:induction false} EdgesClean(g: Graph, id: string, field: Field, edges: seq<Edge>, active: set<string>, e: Edge)
    requires SearchEdges(g, id, field, edges, active) == [] && e in edges
    ensures e.to in active ==> Bounded(e)
    ensures e.to in g && e.to !in active ==> Search(g, e.to, active) == []
    decreases |edges|
  {
    if e != edges[|edges| - 1] {
      EdgesClean(g, id, field, edges[..|edges| - 1], active, e);
    }
  }

  lemma OutClean(g: Graph, id: string, active: set<string>, e: Edge)
    requires id in g && id !in active && Search(g, id, active) == [] && e in Out(g, id)
    ensures e.to in active + {id} ==> Bounded(e)
    ensures e.to in g && e.to !in active + {id} ==> Search(g, e.to, active + {id}) == []
  {
    if e in g[id].next {
      EdgesClean(g, id, Next, g[id].next, active + {id}, e);
    } else {
      EdgesClean(g, id, OnError, g[id].onError, active + {id}, e);
    }
  }

  /** A clean search has looked along every simple walk: edges back onto one are bounded. */
  lemma {:induction false} CleanAlong(g: Graph, p: seq<string>, active: set<string>, e: Edge)
    requires IsWalk(g, p) && Simple(p) && Avoids(p, active) && Search(g, p[0], active) == []
    requires Last(p) in g && e in Out(g, Last(p))
    requires e.to in active || e.to in p
    ensures Bounded(e)
    decreases |p|
  {
    if |p| == 1 {
      OutClean(g, p[0], active, e);
    } else {
      assert Step(g, p[0], p[1]);
      var first :| first in Out(g, p[0]) && first.to == p[1];
      OutClean(g, p[0], active, first);
      var rest := p[1..];
      forall i | 0 <= i < |rest| - 1
        ensures Step(g, rest[i], rest[i + 1])
      {
        assert Step(g, p[i + 1], p[i + 2]);
      }
      CleanAlong(g, rest, active + {p[0]}, e);
    }
  }

  /** A walk to a node whose edge e goes back onto the walk (or the path above it) without a bound. */
  ghost predicate Offends(g: Graph, p: seq<string>, active: set<string>, e: Edge) {
    && IsWalk(g, p) && Simple(p) && Avoids(p, active)
    && Last(p) in g && e in Out(g, Last(p)) && !Bounded(e) && (e.to in active || e.to in p)
  }

  lemma {:induction false} Offender(g: Graph, id: string, active: set<string>) returns (p: seq<string>, e: Edge)
    requires id in g && id !in active && Search(g, id, active) != []
    ensures Offends(g, p, active, e) && p[0] == id
    decreases g.Keys - active, 0
  {
    if SearchEdges(g, id, Next, g[id].next, active + {id}) != [] {
      p, e := EdgeOffender(g, id, Next, g[id].next, active);
    } else {
      p, e := EdgeOffender(g, id, OnError, g[id].onError, active);
    }
  }

  lemma {:induction false} EdgeOffender(g: Graph, id: string, field: Field, edges: seq<Edge>, active: set<string>)
    returns (p: seq<string>, e: Edge)
    requires id in g && id !in active && (forall x :: x in edges ==> x in Out(g, id))
    requires SearchEdges(g, id, field, edges, active + {id}) != []
    ensures Offends(g, p, active, e) && p[0] == id
    decreases g.Keys - active - {id}, |edges|
  {
    var last := edges[|edges| - 1];
    if SearchEdges(g, id, field, edges[..|edges| - 1], active + {id}) != [] {
      p, e := EdgeOffender(g, id, field, edges[..|edges| - 1], active);
    } else if last.to in active + {id} {
      p, e := [id], last;
    } else {
      var q;
      q, e := Offender(g, last.to, active + {id});
      p := [id] + q;
      Prepend(g, id, q, active);
    }
  }

  lemma Prepend(g: Graph, id: string, q: seq<string>, active: set<string>)
    requires IsWalk(g, q) && Simple(q) && Avoids(q, active + {id}) && id !in active && Step(g, id, q[0])
    ensures IsWalk(g, [id] + q) && Simple([id] + q) && Avoids([id] + q, active)
  {
    var p := [id] + q;
    forall i | 0 <= i < |p| - 1
      ensures Step(g, p[i], p[i + 1])
    {
      if i > 0 { assert Step(g, q[i - 1], q[i]); }
    }
  }

  /**
   What the validator accepts, exactly: no UNDECLARED_CYCLE is reported if and only
   if along every simple walk from the entry, each edge back onto the walk is bounded.
   */
  lemma AcceptsExactly(g: Graph, entry: string)
    requires entry in g
    ensures Clean(g, entry) <==> forall p, e :: !(p != [] && p[0] == entry && Offends(g, p, {}, e))
  {
    if !Clean(g, entry) {
      var p, e := Offender(g, entry, {});
    } else {
      forall p, e | p != [] && p[0] == entry && Offends(g, p, {}, e)
        ensures false
      {
        CleanAlong(g, p, {}, e);
      }
    }
  }

  // ---------------------------------------------------------------- cycles

  /** A walk can be made simple without losing its ends. */
  lemma {:induction false} SimpleWalk(g: Graph, w: seq<string>) returns (p: seq<string>)
    requires IsWalk(g, w)
    ensures IsWalk(g, p) && Simple(p) && p[0] == w[0] && Last(p) == Last(w)
    decreases |w|
  {
    if |w| == 1 {
      p := w;
    } else {
      var init := w[..|w| - 1];
      forall i | 0 <= i < |init| - 1
        ensures Step(g, init[i], init[i + 1])
      {
        assert Step(g, w[i], w[i + 1]);
      }
      var q := SimpleWalk(g, init);
      assert Step(g, w[|w| - 2], w[|w| - 1]);
      if k :| 0 <= k < |q| && q[k] == Last(w) {
        p := q[..k + 1];
      } else {
        p := q + [Last(w)];
      }
    }
  }

  /** From a simple walk, free edges only lead to new nodes. */
  lemma {:induction false} FreeWalkStaysSimple(g: Graph, p: seq<string>, w: seq<string>)
    requires IsWalk(g, p) && Simple(p) && Clean(g, p[0])
    requires IsFreeWalk(g, w) && w[0] == Last(p)
    ensures Simple(p + w[1..])
    decreases |w|
  {
    if |w| == 1 {
      assert p + w[1..] == p;
    } else {
      assert FreeStep(g, w[0], w[1]);
      var e :| e in Out(g, w[0]) && e.to == w[1] && !Bounded(e);
      if w[1] in p { CleanAlong(g, p, {}, e); }
      var q := p + [w[1]];
      forall i | 0 <= i < |q| - 1
        ensures Step(g, q[i], q[i + 1])
      {
        if i < |p| - 1 { assert Step(g, p[i], p[i + 1]); }
      }
      var rest := w[1..];
      forall i | 0 <= i < |rest| - 1
        ensures FreeStep(g, rest[i], rest[i + 1])
      {
        assert FreeStep(g, w[i + 1], w[i + 2]);
      }
      FreeWalkStaysSimple(g, q, rest);
      assert q + rest[1..] == p + w[1..];
    }
  }

  /** One edge of a cycle and where it leaves from. */
  datatype Hop = Hop(from: string, edge: Edge)

  function Wrap(i: nat, n: nat): nat
    requires n > 0
  {
    if i + 1 < n then i + 1 else 0
  }

  ghost predicate IsCycle(g: Graph, c: seq<Hop>) {
    && |c| >= 1
    && forall i :: 0 <= i < |c| ==>
                     c[i].from in g && c[i].edge in Out(g, c[i].from) && c[i].edge.to == c[Wrap(i, |c|)].from
  }

  ghost predicate Reachable(g: Graph, entry: string, id: string) {
    exists w :: IsWalk(g, w) && w[0] == entry && Last(w) == id
  }

  /**
   Soundness: in an accepted workflow every cycle reachable from the entry has an
   edge that declares a loop or max_hits.
   */
  lemma EveryCycleIsBounded(g: Graph, entry: string, c: seq<Hop>)
    requires Clean(g, entry) && IsCycle(g, c) && Reachable(g, entry, c[0].from)
    ensures exists k :: 0 <= k < |c| && Bounded(c[k].edge)
  {
    if forall k :: 0 <= k < |c| ==> !Bounded(c[k].edge) {
      var w :| IsWalk(g, w) && w[0] == entry && Last(w) == c[0].from;
      var p := SimpleWalk(g, w);
      var round := seq(|c| + 1, i requires 0 <= i <= |c| => if i < |c| then c[i].from else c[0].from);
      forall i | 0 <= i < |round| - 1
        ensures FreeStep(g, round[i], round[i + 1])
      {
        assert c[i].edge in Out(g, c[i].from) && c[i].edge.to == c[Wrap(i, |c|)].from;
      }
      var whole := p + round[1..];
      assert whole[|p| - 1] == c[0].from == whole[|whole| - 1];
      FreeWalkStaysSimple(g, p, round);
    }
  }

  /** Without declared loops or hit limits, an accepted workflow is walked without repetition. */
  lemma FreeRunsNeverRepeat(g: Graph, entry: string, w: seq<string>)
    requires Clean(g, entry) && IsFreeWalk(g, w) && w[0] == entry
    ensures Simple(w)
  {
    FreeWalkStaysSimple(g, [entry], w);
    assert [entry] + w[1..] == w;
  }

  /**
   The converse of soundness fails: two nodes whose only cycle has a bounded edge
   are still rejected, because the other edge closes the path.
   */
  lemma BoundedCycleCanBeRejected() returns (g: Graph, entry: string)
    ensures entry in g && !Clean(g, entry)
    ensures forall c: seq<Hop> :: IsCycle(g, c) ==> exists k :: 0 <= k < |c| && Bounded(c[k].edge)
  {
    var ab, ba := Edge("b", false, 3), Edge("a", false, 0);
    g, entry := map["a" := Node([ab], []), "b" := Node([ba], [])], "a";
    assert Step(g, "a", "b") by { assert ab in Out(g, "a"); }
    assert ba in Out(g, "b");
    assert Offends(g, ["a", "b"], {}, ba);
    if Clean(g, entry) { CleanAlong(g, ["a", "b"], {}, ba); }
    forall c: seq<Hop> | IsCycle(g, c)
      ensures exists k :: 0 <= k < |c| && Bounded(c[k].edge)
    {
      assert c[0].from in g && c[0].edge in Out(g, c[0].from);
      assert c[0].edge.to == c[Wrap(0, |c|)].from;
      if c[0].from == "a" {
        assert c[0].edge == ab;
      } else {
        assert c[0].edge == ba;
        assert |c| > 1 && c[1].from == "a" && c[1].edge in Out(g, "a");
        assert c[1].edge == ab;
      }
    }
  }
}
