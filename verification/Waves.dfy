/**
 Running a plan in waves: which steps a wave takes, and why the number of the wave that
 takes a step is the length of the longest dependency chain starting at that step.
 */
module Waves {
  import opened Graph
  import opened Contracts

  // ---------- the dictionary of remaining steps ----------

  /** The steps not done yet, in plan order. */
  function Pending(steps: seq<Step>, done: set<string>): (r: seq<Step>)
    ensures forall s :: s in r <==> s in steps && s.id !in done
    ensures |r| <= |steps|
  {
    if steps == [] then []
    else
      assert forall s :: s in steps <==> s == steps[0] || s in steps[1..];
      (if steps[0].id in done then [] else [steps[0]]) + Pending(steps[1..], done)
  }

  /** `remaining.pop(id)` */
  function Without(steps: seq<Step>, id: string): seq<Step> {
    if steps == [] then []
    else (if steps[0].id == id then [] else [steps[0]]) + Without(steps[1..], id)
  }

  lemma {:induction false} PopPending(steps: seq<Step>, done: set<string>, id: string)
    ensures Without(Pending(steps, done), id) == Pending(steps, done + {id})
  {
    if steps != [] {
      PopPending(steps[1..], done, id);
      var rest := Pending(steps[1..], done);
      if steps[0].id !in done {
        assert ([steps[0]] + rest)[1..] == rest;
      } else {
        assert [] + rest == rest;
      }
    }
  }

  lemma {:induction false} PendingIsUnique(steps: seq<Step>, done: set<string>)
    requires UniqueIds(steps)
    ensures UniqueIds(Pending(steps, done))
  {
    if steps != [] {
      PendingIsUnique(steps[1..], done);
      assert forall s :: s in steps[1..] ==> s.id != steps[0].id;
    }
  }

  predicate DependenciesDone(step: Step, done: set<string>) {
    forall d :: d in step.dependsOn ==> d in done
  }

  /** The remaining steps whose dependencies all have results. */
  function ReadySteps(remaining: seq<Step>, done: set<string>): (r: seq<Step>)
    ensures forall s :: s in r <==> s in remaining && DependenciesDone(s, done)
  {
    if remaining == [] then []
    else
      assert forall s :: s in remaining <==> s == remaining[0] || s in remaining[1..];
      (if DependenciesDone(remaining[0], done) then [remaining[0]] else []) + ReadySteps(remaining[1..], done)
  }

  lemma {:induction false} ReadyIsUnique(remaining: seq<Step>, done: set<string>)
    requires UniqueIds(remaining)
    ensures UniqueIds(ReadySteps(remaining, done))
  {
    if remaining != [] {
      ReadyIsUnique(remaining[1..], done);
      assert forall s :: s in remaining[1..] ==> s.id != remaining[0].id;
    }
  }

  lemma {:induction false} StepOfEdge(steps: seq<Step>, id: string) returns (step: Step)
    requires UniqueIds(steps) && id in GraphOf(steps)
    ensures step in steps && step.id == id && GraphOf(steps)[id] == step.dependsOn
  {
    step := ById(steps)[id];
    EdgesAreDependencies(steps, step);
  }

  /** Some remaining step of a valid plan is always ready. */
  lemma {:induction false} SomeStepIsReady(steps: seq<Step>, done: set<string>) returns (step: Step)
    requires UniqueIds(steps) && Closed(GraphOf(steps)) && Acyclic(GraphOf(steps))
    requires Pending(steps, done) != []
    ensures step in ReadySteps(Pending(steps, done), done)
  {
    var g := GraphOf(steps);
    var waiting := g.Keys - done;
    var first := Pending(steps, done)[0];
    EdgesAreDependencies(steps, first);
    assert first.id in waiting by {
      assert first in Pending(steps, done);
    }
    ReadyExists(g, waiting);
    var id :| Ready(g, waiting, id);
    step := StepOfEdge(steps, id);
    forall d | d in step.dependsOn ensures d in done {
      assert d in g[id];
    }
  }

  // ---------- wave numbers ----------

  /** Some dependency is missing, or had its result only in wave `n`. */
  ghost predicate WaitedFor(g: Graph, level: map<string, nat>, id: string, n: nat) {
    id in g && exists d :: d in g[id] && (d !in level || level[d] == n)
  }

  ghost predicate InWaves(g: Graph, level: map<string, nat>, n: nat) {
    level.Keys <= g.Keys && forall id :: id in level ==> 1 <= level[id] <= n
  }

  ghost predicate AboveDependencies(g: Graph, level: map<string, nat>) {
    forall id, d :: id in level && id in g && d in g[id] ==> d in level && level[d] < level[id]
  }

  ghost predicate JustAbove(g: Graph, level: map<string, nat>) {
    forall id {:trigger HasDependencyAt(g, level, id)} ::
      id in level && level[id] > 1 ==> HasDependencyAt(g, level, id)
  }

  ghost predicate AllWaited(g: Graph, level: map<string, nat>, n: nat) {
    forall id {:trigger WaitedFor(g, level, id, n)} ::
      id in g && id !in level ==> WaitedFor(g, level, id, n)
  }

  /** After `n` waves `level` gives every done id its wave. */
  ghost predicate Levelled(g: Graph, level: map<string, nat>, n: nat) {
    InWaves(g, level, n) && AboveDependencies(g, level) && JustAbove(g, level) && (n >= 1 ==> AllWaited(g, level, n))
  }

  function WithWave(level: map<string, nat>, ready: set<string>, n: nat): map<string, nat> {
    map id | id in level.Keys + ready :: if id in level then level[id] else n
  }

  ghost predicate TakesReady(g: Graph, level: map<string, nat>, ready: set<string>) {
    && ready !! level.Keys
    && forall id :: id in ready <==> id in g && id !in level && forall d :: d in g[id] ==> d in level
  }

  lemma {:induction false} AboveInNextWave(g: Graph, level: map<string, nat>, n: nat, ready: set<string>, id: string,
                                           d: string)
    requires InWaves(g, level, n) && AboveDependencies(g, level) && TakesReady(g, level, ready)
    requires id in g && d in g[id] && (id in level || id in ready)
    ensures d in level && id in WithWave(level, ready, n + 1)
    ensures WithWave(level, ready, n + 1)[d] < WithWave(level, ready, n + 1)[id]
  {
    if id in level {
      assert level[d] < level[id];
    } else {
      assert level[d] <= n;
    }
  }

  lemma {:induction false} NextWaveIsAbove(g: Graph, level: map<string, nat>, n: nat, ready: set<string>)
    requires InWaves(g, level, n) && AboveDependencies(g, level) && TakesReady(g, level, ready)
    ensures AboveDependencies(g, WithWave(level, ready, n + 1))
  {
    var next := WithWave(level, ready, n + 1);
    forall id, d | id in next && id in g && d in g[id] ensures d in next && next[d] < next[id] {
      AboveInNextWave(g, level, n, ready, id, d);
    }
  }

  lemma {:induction false} NextWaveIsInWaves(g: Graph, level: map<string, nat>, n: nat, ready: set<string>)
    requires InWaves(g, level, n) && TakesReady(g, level, ready)
    ensures InWaves(g, WithWave(level, ready, n + 1), n + 1)
  {
  }

  lemma {:induction false} NextWaveIsJustAbove(g: Graph, level: map<string, nat>, n: nat, ready: set<string>)
    requires InWaves(g, level, n) && JustAbove(g, level) && TakesReady(g, level, ready)
    requires n >= 1 ==> AllWaited(g, level, n)
    ensures JustAbove(g, WithWave(level, ready, n + 1))
  {
    var next := WithWave(level, ready, n + 1);
    forall id | id in next && next[id] > 1 ensures HasDependencyAt(g, next, id) {
      if id in level {
        assert HasDependencyAt(g, level, id);
        var d :| d in g[id] && d in level && level[d] + 1 == level[id];
        assert next[d] + 1 == next[id];
      } else {
        assert WaitedFor(g, level, id, n);
        var d :| d in g[id] && (d !in level || level[d] == n);
        assert next[d] + 1 == next[id];
      }
    }
  }

  lemma {:induction false} NextWaveLeavesWaiting(g: Graph, level: map<string, nat>, n: nat, ready: set<string>)
    requires TakesReady(g, level, ready)
    ensures AllWaited(g, WithWave(level, ready, n + 1), n + 1)
  {
    var next := WithWave(level, ready, n + 1);
    forall id | id in g && id !in next ensures WaitedFor(g, next, id, n + 1) {
      var d :| d in g[id] && d !in level;
      assert d !in next || next[d] == n + 1;
    }
  }

  /** A wave takes every id whose dependencies are done. */
  lemma {:induction false} NextWaveIsLevelled(g: Graph, level: map<string, nat>, n: nat, ready: set<string>)
    requires Levelled(g, level, n) && TakesReady(g, level, ready)
    ensures Levelled(g, WithWave(level, ready, n + 1), n + 1)
  {
    NextWaveIsInWaves(g, level, n, ready);
    NextWaveIsAbove(g, level, n, ready);
    NextWaveIsJustAbove(g, level, n, ready);
    NextWaveLeavesWaiting(g, level, n, ready);
  }

  lemma {:induction false} CompleteLevelsAreLongestChains(g: Graph, level: map<string, nat>, n: nat)
    requires Closed(g) && Levelled(g, level, n) && level.Keys == g.Keys
    ensures forall id :: id in g ==> LongestChain(g, id, level[id])
  {
    assert IsLevelling(g, level);
    forall id | id in g ensures LongestChain(g, id, level[id]) {
      LevellingIsLongestChain(g, level, id);
    }
  }
}
