/**
 Finite dependency graphs over step ids: cycles, topological orders, longest chains,
 and the three-colour depth-first search that decides whether a graph has a cycle.
 */
module Graph {

  /** Each known id with the ids it depends on. */
  type Graph = map<string, seq<string>>

  predicate Closed(g: Graph) {
    forall id :: id in g ==> forall d :: d in g[id] ==> d in g
  }

  /** Each element depends on its successor. */
  ghost predicate IsChain(g: Graph, c: seq<string>) {
    && (forall i :: 0 <= i < |c| ==> c[i] in g)
    && forall i :: 0 <= i < |c| - 1 ==> c[i + 1] in g[c[i]]
  }

  ghost predicate IsCycle(g: Graph, c: seq<string>) {
    IsChain(g, c) && c != [] && c[0] in g[c[|c| - 1]]
  }

  ghost predicate Acyclic(g: Graph) {
    forall c :: !IsCycle(g, c)
  }

  predicate Distinct<T(==)>(s: seq<T>) {
    forall i, j :: 0 <= i < j < |s| ==> s[i] != s[j]
  }

  /** Every dependency of a listed id is listed earlier. */
  ghost predicate DependenciesFirst(g: Graph, order: seq<string>) {
    forall i :: 0 <= i < |order| ==> order[i] in g && forall d :: d in g[order[i]] ==> d in order[..i]
  }

  ghost predicate IsTopological(g: Graph, order: seq<string>) {
    && Distinct(order)
    && DependenciesFirst(g, order)
    && forall id :: id in g ==> id in order
  }

  // ---------- a topological order exists exactly when there is no cycle ----------

  /** Following a cycle backwards through the order never ends. */
  lemma {:induction false} CycleDescends(g: Graph, order: seq<string>, c: seq<string>, k: nat, p: nat)
    requires DependenciesFirst(g, order) && IsCycle(g, c)
    requires k < |c| && p < |order| && order[p] == c[k]
    ensures false
    decreases p
  {
    var next := if k + 1 < |c| then k + 1 else 0;
    assert c[next] in g[order[p]];
    assert c[next] in order[..p];
    var q :| 0 <= q < p && order[..p][q] == c[next];
    CycleDescends(g, order, c, next, q);
  }

  lemma {:induction false} TopologicalIsAcyclic(g: Graph, order: seq<string>)
    requires IsTopological(g, order)
    ensures Acyclic(g)
  {
    forall c | IsCycle(g, c) ensures false {
      assert c[0] in order;
      var p :| 0 <= p < |order| && order[p] == c[0];
      CycleDescends(g, order, c, 0, p);
    }
  }

  ghost predicate Ready(g: Graph, pending: set<string>, id: string) {
    id in pending && id in g && forall d :: d in g[id] ==> d !in pending
  }

  /** Walking down dependencies inside `pending` ends in a ready id or closes a cycle. */
  lemma {:induction false} WalkDown(g: Graph, pending: set<string>, trail: seq<string>) returns (id: string)
    requires Closed(g) && Acyclic(g) && pending <= g.Keys
    requires trail != [] && IsChain(g, trail) && forall x :: x in trail ==> x in pending
    ensures Ready(g, pending, id)
    decreases pending - (set x | x in trail)
  {
    var last := trail[|trail| - 1];
    if d :| d in g[last] && d in pending {
      if d in trail {
        var k :| 0 <= k < |trail| && trail[k] == d;
        assert IsCycle(g, trail[k..]);
      }
      var longer := trail + [d];
      assert forall x :: x in longer <==> x in trail || x == d;
      assert d in pending - (set x | x in trail) && d !in pending - (set x | x in longer);
      id := WalkDown(g, pending, longer);
    } else {
      id := last;
    }
  }

  /** In an acyclic graph some pending id waits for nothing that is pending. */
  lemma {:induction false} ReadyExists(g: Graph, pending: set<string>)
    requires Closed(g) && Acyclic(g) && pending <= g.Keys && pending != {}
    ensures exists id :: Ready(g, pending, id)
  {
    var first :| first in pending;
    var id := WalkDown(g, pending, [first]);
  }

  lemma {:induction false} ExtendOrder(g: Graph, done: seq<string>, pending: set<string>) returns (order: seq<string>)
    requires Closed(g) && Acyclic(g) && Distinct(done) && DependenciesFirst(g, done)
    requires pending == g.Keys - (set x | x in done)
    ensures IsTopological(g, order)
    decreases pending
  {
    if pending == {} {
      forall id | id in g ensures id in done {
        assert id !in pending;
      }
      order := done;
    } else {
      ReadyExists(g, pending);
      var id :| Ready(g, pending, id);
      var more := done + [id];
      forall i | 0 <= i < |more|
        ensures more[i] in g && forall d :: d in g[more[i]] ==> d in more[..i]
      {
        if i < |done| {
          assert more[..i] == done[..i];
        } else {
          assert more[..i] == done;
        }
      }
      order := ExtendOrder(g, more, pending - {id});
    }
  }

  lemma {:induction false} AcyclicHasOrder(g: Graph)
    requires Closed(g) && Acyclic(g)
    ensures exists order :: IsTopological(g, order)
  {
    var order := ExtendOrder(g, [], g.Keys);
  }

  // ---------- longest dependency chains ----------

  ghost predicate ChainFrom(g: Graph, id: string, c: seq<string>) {
    IsChain(g, c) && c != [] && c[0] == id
  }

  /** `n` ids make up the longest dependency chain that starts at `id`. */
  ghost predicate LongestChain(g: Graph, id: string, n: nat) {
    && (exists c :: ChainFrom(g, id, c) && |c| == n)
    && forall c :: ChainFrom(g, id, c) ==> |c| <= n
  }

  /** `level` puts every id one above the highest of its dependencies, and at 1 without any. */
  ghost predicate IsLevelling(g: Graph, level: map<string, nat>) {
    && (forall id :: id in g ==> id in level && level[id] >= 1)
    && (forall id, d :: id in g && d in g[id] && d in level ==> level[d] < level[id])
    && forall id {:trigger HasDependencyAt(g, level, id)} ::
         id in g && level[id] > 1 ==> HasDependencyAt(g, level, id)
  }

  /** Some dependency of `id` is exactly one level below it. */
  ghost predicate HasDependencyAt(g: Graph, level: map<string, nat>, id: string) {
    id in g && id in level && exists d :: d in g[id] && d in level && level[d] + 1 == level[id]
  }

  lemma {:induction false} LevelReached(g: Graph, level: map<string, nat>, id: string) returns (c: seq<string>)
    requires Closed(g) && IsLevelling(g, level) && id in g
    ensures ChainFrom(g, id, c) && |c| == level[id]
    decreases level[id]
  {
    if level[id] == 1 {
      c := [id];
    } else {
      assert HasDependencyAt(g, level, id);
      var d :| d in g[id] && d in level && level[d] + 1 == level[id];
      var rest := LevelReached(g, level, d);
      c := [id] + rest;
    }
  }

  lemma {:induction false} LevelBounds(g: Graph, level: map<string, nat>, id: string, c: seq<string>)
    requires Closed(g) && IsLevelling(g, level) && ChainFrom(g, id, c)
    ensures |c| <= level[id]
    decreases |c|
  {
    if |c| > 1 {
      assert c[1] in g[c[0]];
      assert ChainFrom(g, c[1], c[1..]) by {
        assert forall i :: 0 <= i < |c[1..]| ==> c[1..][i] == c[i + 1];
      }
      LevelBounds(g, level, c[1], c[1..]);
    }
  }

  /** A levelling is the longest-chain length of every id. */
  lemma {:induction false} LevellingIsLongestChain(g: Graph, level: map<string, nat>, id: string)
    requires Closed(g) && IsLevelling(g, level) && id in g
    ensures LongestChain(g, id, level[id])
  {
    var c := LevelReached(g, level, id);
    forall c' | ChainFrom(g, id, c') ensures |c'| <= level[id] {
      LevelBounds(g, level, id, c');
    }
  }

  // ---------- three-colour depth-first search ----------

  /**
   The search over one graph. An id is unvisited (absent), on the current trail (1) or
   finished (2). `finished` lists the finished ids in the order they finished.
   */
  class CycleSearch {
    const graph: Graph
    var visitState: map<string, int>
    ghost var finished: seq<string>
    ghost var trail: seq<string>

    ghost predicate Valid()
      reads this
    {
      && Closed(graph)
      && (forall id :: id in visitState ==> id in graph && visitState[id] in {1, 2})
      && (forall id :: id in finished <==> id in visitState && visitState[id] == 2)
      && (forall id :: id in trail <==> id in visitState && visitState[id] == 1)
      && IsChain(graph, trail)
      && Distinct(finished)
      && DependenciesFirst(graph, finished)
    }

    ghost function Finished(): set<string>
      reads this
    {
      set id | id in finished
    }

    constructor (graph: Graph)
      requires Closed(graph)
      ensures Valid() && this.graph == graph && trail == [] && finished == []
    {
      this.graph := graph;
      visitState := map[];
      finished := [];
      trail := [];
    }

    /** Visits an id; `cycle` is the raised error, after which the search is abandoned. */
    method Visit(id: string) returns (cycle: bool)
      requires Valid() && id in graph
      requires trail != [] ==> id in graph[trail[|trail| - 1]]
      modifies this`visitState, this`finished, this`trail
      ensures cycle ==> !Acyclic(graph)
      ensures !cycle ==> Valid() && trail == old(trail) && id in Finished()
      ensures !cycle ==> Finished() >= old(Finished()) && visitState.Keys >= old(visitState.Keys)
      decreases graph.Keys - visitState.Keys
    {
      var state := if id in visitState then visitState[id] else 0;
      if state == 1 {
        CycleOnTrail(id);
        return true;
      }
      if state == 2 {
        return false;
      }
      Enter(id);
      for i := 0 to |graph[id]|
        invariant Valid() && trail == old(trail) + [id] && Finished() >= old(Finished())
        invariant old(visitState.Keys) + {id} <= visitState.Keys
        invariant forall j :: 0 <= j < i ==> graph[id][j] in Finished()
      {
        assert id in graph.Keys - old(visitState.Keys) && id !in graph.Keys - visitState.Keys;
        cycle := Visit(graph[id][i]);
        if cycle {
          return true;
        }
      }
      Finish(id, old(trail));
      return false;
    }

    lemma {:induction false} CycleOnTrail(id: string)
      requires Valid() && id in trail && id in graph[trail[|trail| - 1]]
      ensures !Acyclic(graph)
    {
      var k :| 0 <= k < |trail| && trail[k] == id;
      assert IsCycle(graph, trail[k..]);
    }

    /** Puts an unvisited id on top of the trail. */
    method Enter(id: string)
      requires Valid() && id in graph && id !in visitState
      requires trail != [] ==> id in graph[trail[|trail| - 1]]
      modifies this`visitState, this`trail
      ensures Valid() && trail == old(trail) + [id] && visitState.Keys == old(visitState.Keys) + {id}
      ensures id !in old(trail)
    {
      visitState := visitState[id := 1];
      trail := trail + [id];
      assert forall x :: x in trail <==> x in old(trail) || x == id;
    }

    /** Marks the id on top of the trail finished. */
    method Finish(id: string, ghost rest: seq<string>)
      requires Valid() && trail == rest + [id] && id !in rest
      requires forall j :: 0 <= j < |graph[id]| ==> graph[id][j] in Finished()
      modifies this`visitState, this`finished, this`trail
      ensures Valid() && trail == rest && finished == old(finished) + [id]
    {
      assert trail[|rest|] == id && forall i :: 0 <= i < |rest| ==> rest[i] == trail[i];
      assert visitState[id] == 1;
      visitState := visitState[id := 2];
      finished := finished + [id];
      trail := rest;
      assert forall x :: x in finished <==> x in old(finished) || x == id;
      assert forall x :: x in old(trail) <==> x in rest || x == id;
      forall i | 0 <= i < |finished|
        ensures finished[i] in graph && forall d :: d in graph[finished[i]] ==> d in finished[..i]
      {
        if i < |old(finished)| {
          assert finished[i] == old(finished)[i] && finished[..i] == old(finished)[..i];
        } else {
          assert finished[..i] == old(finished);
        }
      }
    }
  }

  /** Visits every id; the search fails exactly on a cycle, and otherwise its finish order is topological. */
  method FindOrder(g: Graph, ids: seq<string>) returns (cyclic: bool, ghost order: seq<string>)
    requires Closed(g)
    requires forall id :: id in ids <==> id in g
    ensures cyclic <==> !Acyclic(g)
    ensures !cyclic ==> IsTopological(g, order)
  {
    var search := new CycleSearch(g);
    for i := 0 to |ids|
      invariant search.Valid() && search.graph == g && search.trail == []
      invariant forall j :: 0 <= j < i ==> ids[j] in search.Finished()
    {
      cyclic := search.Visit(ids[i]);
      if cyclic {
        order := [];
        return;
      }
    }
    cyclic, order := false, search.finished;
    TopologicalIsAcyclic(g, order);
  }
}
