/**
 What a plan evaluates to: a recursive evaluator over the dependency graph, stated
 without waves, and the properties of its results.
 */
module Evaluation {
  import opened Text
  import opened Json
  import opened References
  import opened Graph
  import opened Contracts
  import opened Operations

  /** What a run depends on besides the plan: the registry, how digits are read, and the id each approval would get. */
  datatype Environment = Environment(registry: Registry, digits: Digits, approvalId: string -> string)

  type Results = map<string, StepResult>

  /** What happens to a step once all its dependencies have results. */
  datatype Disposition =
    | Blocked
    | Unresolved(error: ResolveError)
    | Gated(arguments: Value)
    | Dispatched(arguments: Value)

  predicate Unavailable(status: Status) {
    status in {Failed, Skipped, AwaitingApproval}
  }

  function DataOf(results: Results): map<string, Value> {
    map id | id in results :: results[id].data
  }

  predicate DependenciesHaveResults(step: Step, results: Results) {
    forall d :: d in step.dependsOn ==> d in results
  }

  predicate AnyUnavailable(dependencies: seq<string>, results: Results)
    requires forall d :: d in dependencies ==> d in results
  {
    dependencies != [] && (Unavailable(results[dependencies[0]].status) || AnyUnavailable(dependencies[1..], results))
  }

  lemma {:induction false} AnyUnavailableMeans(dependencies: seq<string>, results: Results)
    requires forall d :: d in dependencies ==> d in results
    ensures AnyUnavailable(dependencies, results) <==> exists d :: d in dependencies && Unavailable(results[d].status)
  {
    if dependencies != [] {
      AnyUnavailableMeans(dependencies[1..], results);
      assert forall d :: d in dependencies <==> d == dependencies[0] || d in dependencies[1..];
    }
  }

  lemma {:induction false} AnyUnavailableReads(dependencies: seq<string>, a: Results, b: Results)
    requires forall d :: d in dependencies ==> d in a && d in b && a[d] == b[d]
    ensures AnyUnavailable(dependencies, a) == AnyUnavailable(dependencies, b)
  {
    if dependencies != [] {
      AnyUnavailableReads(dependencies[1..], a, b);
    }
  }

  function Dispose(step: Step, results: Results, env: Environment): Disposition
    requires DependenciesHaveResults(step, results)
  {
    if AnyUnavailable(step.dependsOn, results) then Blocked
    else
      match Resolve(env.digits, step.arguments, DataOf(results))
      case Err(error) => Unresolved(error)
      case Ok(arguments) =>
        if env.registry.requiresApproval(step.service, step.operation) then Gated(arguments) else Dispatched(arguments)
  }

  function ReplyResult(step: Step, reply: AgentReply): StepResult {
    match reply
    case Raised => StepResult(step.id, Failed, Obj([]), Some(OperationFailed))
    case Replied(status, data, error) => StepResult(step.id, status, data, error)
  }

  function ApprovalData(approvalId: string): Value {
    Obj([Field("approval_id", Str(approvalId))])
  }

  function ResultOf(step: Step, d: Disposition, env: Environment): StepResult {
    match d
    case Blocked => StepResult(step.id, Skipped, Obj([]), Some(DependencyUnavailable))
    case Unresolved(e) => StepResult(step.id, Failed, Obj([]), Some(ReferenceError(e)))
    case Gated(_) =>
      StepResult(step.id, AwaitingApproval, ApprovalData(env.approvalId(step.id)), None)
    case Dispatched(arguments) =>
      ReplyResult(step, env.registry.execute(step.service, step.operation, arguments))
  }

  function Outcome(step: Step, results: Results, env: Environment): StepResult
    requires DependenciesHaveResults(step, results)
  {
    ResultOf(step, Dispose(step, results, env), env)
  }

  // ---------- plans by id ----------

  type Plan = map<string, Step>

  ghost predicate Proper(plan: Plan, id: string) {
    && id in plan && plan[id].id == id && IsIdentifier(id)
    && ReferencesDeclared(plan[id])
    && forall d :: d in plan[id].dependsOn ==> d in plan
  }

  /** Dependencies rank strictly below the step that has them. */
  ghost predicate RanksDependencies(plan: Plan, rank: map<string, nat>) {
    && plan.Keys <= rank.Keys
    && forall id, d :: id in plan && d in plan[id].dependsOn ==> d in rank && rank[d] < rank[id]
  }

  /** Every step is proper; the dependencies may still run in circles. */
  ghost predicate AllProper(plan: Plan) {
    forall id {:trigger Proper(plan, id)} :: id in plan ==> Proper(plan, id)
  }

  ghost predicate WellFounded(plan: Plan) {
    AllProper(plan) && exists rank :: RanksDependencies(plan, rank)
  }

  function Positions(order: seq<string>): (m: map<string, nat>)
    ensures forall id :: id in m <==> id in order
    ensures forall id :: id in m ==> m[id] < |order| && order[m[id]] == id
  {
    if order == [] then map[]
    else Positions(order[..|order| - 1])[order[|order| - 1] := |order| - 1]
  }

  lemma {:induction false} TopologicalOrderRanks(g: Graph, order: seq<string>)
    requires IsTopological(g, order)
    ensures var rank := Positions(order);
            && g.Keys <= rank.Keys
            && forall id, d :: id in g && d in g[id] ==> d in rank && rank[d] < rank[id]
  {
    var rank := Positions(order);
    forall id, d | id in g && d in g[id] ensures d in rank && rank[d] < rank[id] {
      assert id in order && order[rank[id]] == id;
      assert d in order[..rank[id]];
      var k :| 0 <= k < rank[id] && order[..rank[id]][k] == d;
      assert order[k] == d && order[rank[d]] == d;
    }
  }

  lemma {:induction false} ValidPlanHasRanks(steps: seq<Step>)
    requires Closed(GraphOf(steps)) && Acyclic(GraphOf(steps))
    ensures exists rank :: RanksDependencies(ById(steps), rank)
  {
    var plan, g := ById(steps), GraphOf(steps);
    AcyclicHasOrder(g);
    var order :| IsTopological(g, order);
    TopologicalOrderRanks(g, order);
    var rank := Positions(order);
    assert RanksDependencies(plan, rank) by {
      assert forall id :: id in plan <==> id in g;
      assert forall id :: id in plan ==> g[id] == plan[id].dependsOn;
    }
  }

  lemma {:induction false} ValidPlanIsProper(steps: seq<Step>, id: string)
    requires AllFieldsValid(steps) && Closed(GraphOf(steps)) && id in ById(steps)
    requires forall i :: 0 <= i < |steps| ==> ReferencesDeclared(steps[i])
    ensures Proper(ById(steps), id)
  {
    var step := ById(steps)[id];
    var i :| 0 <= i < |steps| && steps[i] == step;
    assert FieldsValid(steps[i]);
    assert id in GraphOf(steps) && GraphOf(steps)[id] == step.dependsOn;
  }

  /** A valid plan, seen by id, is well founded. */
  lemma {:induction false} ValidPlanIsWellFounded(steps: seq<Step>)
    requires ValidPlan(steps)
    ensures WellFounded(ById(steps))
  {
    ValidPlanHasRanks(steps);
    forall id | id in ById(steps) ensures Proper(ById(steps), id) {
      ValidPlanIsProper(steps, id);
    }
  }

  // ---------- the recursive evaluator ----------

  /** The result of one step, evaluated recursively from its dependencies alone. */
  ghost function Eval(plan: Plan, rank: map<string, nat>, env: Environment, id: string): StepResult
    requires RanksDependencies(plan, rank) && id in plan
    requires forall x :: x in plan ==> forall d :: d in plan[x].dependsOn ==> d in plan
    decreases rank[id]
  {
    var inputs := map d | d in plan[id].dependsOn :: Eval(plan, rank, env, d);
    Outcome(plan[id], inputs, env)
  }

  ghost predicate AreInputs(plan: Plan, rank: map<string, nat>, env: Environment, id: string, inputs: Results)
    requires RanksDependencies(plan, rank) && id in plan
    requires forall x :: x in plan ==> forall d :: d in plan[x].dependsOn ==> d in plan
  {
    && (forall d :: d in inputs <==> d in plan[id].dependsOn)
    && forall d :: d in plan[id].dependsOn ==> inputs[d] == Eval(plan, rank, env, d)
  }

  lemma {:induction false} EvalOfInputs(plan: Plan, rank: map<string, nat>, env: Environment, id: string)
    returns (inputs: Results)
    requires RanksDependencies(plan, rank) && id in plan
    requires forall x :: x in plan ==> forall d :: d in plan[x].dependsOn ==> d in plan
    ensures AreInputs(plan, rank, env, id, inputs)
    ensures Eval(plan, rank, env, id) == Outcome(plan[id], inputs, env)
  {
    inputs := map d | d in plan[id].dependsOn :: Eval(plan, rank, env, d);
  }

  ghost predicate IdentifierKeys(results: Results) {
    forall id :: id in results ==> IsIdentifier(id)
  }

  ghost predicate AgreeOnDependencies(step: Step, a: Results, b: Results) {
    && DependenciesHaveResults(step, a) && DependenciesHaveResults(step, b)
    && forall d :: d in step.dependsOn ==> a[d] == b[d]
  }

  /** A step reads nothing but the results of its dependencies, padded references included. */
  lemma {:induction false} DisposeReadsDependencies(step: Step, a: Results, b: Results, env: Environment)
    requires ReferencesDeclared(step)
    requires IdentifierKeys(a) && IdentifierKeys(b) && AgreeOnDependencies(step, a, b)
    ensures Dispose(step, a, env) == Dispose(step, b, env)
  {
    var refs := AllReferences(step.arguments);
    FindAgrees(step.arguments);
    forall i | 0 <= i < |refs| && refs[i].target.Str?
      ensures var id := refs[i].target.s;
              (id in a <==> id in b) && (id in a ==> DataOf(a)[id] == DataOf(b)[id])
    {
      var id := refs[i].target.s;
      if Padded(refs[i]) {
        if id in a || id in b {
          IdentifierIsTrimmed(id);
        }
      } else {
        assert FindStepReferences(step.arguments).value[i] == id;
        assert id in step.dependsOn;
      }
    }
    ResolutionReadsOnlyReferences(env.digits, step.arguments, DataOf(a), DataOf(b));
    AnyUnavailableReads(step.dependsOn, a, b);
  }

  lemma {:induction false} OutcomeReadsDependencies(plan: Plan, id: string, a: Results, b: Results, env: Environment)
    requires AllProper(plan) && id in plan
    requires IdentifierKeys(a) && IdentifierKeys(b) && AgreeOnDependencies(plan[id], a, b)
    ensures Outcome(plan[id], a, env) == Outcome(plan[id], b, env)
  {
    assert Proper(plan, id);
    DisposeReadsDependencies(plan[id], a, b, env);
  }

  /** `results` assigns every step the outcome of its dependencies' results. */
  ghost predicate IsSolution(plan: Plan, env: Environment, results: Results) {
    && results.Keys == plan.Keys
    && forall id {:trigger Settled(plan, env, results, id)} :: id in plan ==> Settled(plan, env, results, id)
  }

  ghost predicate Settled(plan: Plan, env: Environment, results: Results, id: string) {
    && id in plan && id in results
    && DependenciesHaveResults(plan[id], results)
    && results[id] == Outcome(plan[id], results, env)
  }

  lemma {:induction false} KeysAreIdentifiers(plan: Plan, results: Results)
    requires AllProper(plan) && results.Keys <= plan.Keys
    ensures IdentifierKeys(results)
  {
    forall id | id in results ensures IsIdentifier(id) {
      assert Proper(plan, id);
    }
  }

  lemma {:induction false} DependenciesAreClosed(plan: Plan)
    requires AllProper(plan)
    ensures forall x :: x in plan ==> forall d :: d in plan[x].dependsOn ==> d in plan
  {
    forall x | x in plan ensures forall d :: d in plan[x].dependsOn ==> d in plan {
      assert Proper(plan, x);
    }
  }

  /** Any consistent assignment agrees with the recursive evaluator. */
  lemma {:induction false} SolutionIsRecursive(plan: Plan, rank: map<string, nat>, env: Environment, results: Results,
                                               id: string)
    requires WellFounded(plan) && RanksDependencies(plan, rank)
    requires forall x :: x in plan ==> forall d :: d in plan[x].dependsOn ==> d in plan
    requires IsSolution(plan, env, results) && id in plan
    ensures results[id] == Eval(plan, rank, env, id)
    decreases rank[id]
  {
    var inputs := EvalOfInputs(plan, rank, env, id);
    forall d | d in plan[id].dependsOn ensures results[d] == inputs[d] {
      SolutionIsRecursive(plan, rank, env, results, d);
    }
    assert Settled(plan, env, results, id);
    KeysAreIdentifiers(plan, inputs);
    KeysAreIdentifiers(plan, results);
    OutcomeReadsDependencies(plan, id, inputs, results, env);
  }

  lemma {:induction false} SolutionIsUnique(plan: Plan, env: Environment, a: Results, b: Results)
    requires WellFounded(plan) && IsSolution(plan, env, a) && IsSolution(plan, env, b)
    ensures a == b
  {
    DependenciesAreClosed(plan);
    var rank :| RanksDependencies(plan, rank);
    forall id | id in plan ensures a[id] == b[id] {
      SolutionIsRecursive(plan, rank, env, a, id);
      SolutionIsRecursive(plan, rank, env, b, id);
    }
  }

  // ---------- plans with cycles ----------

  function Edges(plan: Plan): Graph {
    map id | id in plan :: plan[id].dependsOn
  }

  /** A dependency chain from `id` that comes back to one of its steps. */
  ghost predicate ClosesFrom(plan: Plan, id: string, c: seq<string>) {
    ChainFrom(Edges(plan), id, c) && c[|c| - 1] in c[..|c| - 1]
  }

  ghost predicate BehindCycle(plan: Plan, id: string) {
    exists c :: ClosesFrom(plan, id, c)
  }

  ghost predicate IsPartialSolution(plan: Plan, env: Environment, done: Results) {
    && done.Keys <= plan.Keys
    && forall id {:trigger Settled(plan, env, done, id)} ::
         id in done ==> Settled(plan, env, done, id) && !BehindCycle(plan, id)
  }

  /** The chain closes without its first step. */
  lemma {:induction false} ClosesFurtherOn(plan: Plan, id: string, c: seq<string>)
    requires ClosesFrom(plan, id, c) && c[|c| - 1] in c[1..|c| - 1]
    ensures ClosesFrom(plan, c[1], c[1..])
  {
    assert c[1..][..|c[1..]| - 1] == c[1..|c| - 1];
  }

  /** The chain closes at its first step; going round once more, it closes from the next one too. */
  lemma {:induction false} ClosesRound(plan: Plan, id: string, c: seq<string>)
    requires ClosesFrom(plan, id, c) && c[|c| - 1] == c[0]
    ensures ClosesFrom(plan, c[1], c[1..] + [c[1]])
  {
    var round := c[1..] + [c[1]];
    assert c[0 + 1] in Edges(plan)[c[0]];
    assert round[..|round| - 1] == c[1..] && c[1..][0] == c[1];
  }

  /** A step behind a cycle has a dependency behind that cycle. */
  lemma {:induction false} CycleIsBehindDependency(plan: Plan, id: string)
    requires BehindCycle(plan, id)
    ensures id in plan && exists d :: d in plan[id].dependsOn && BehindCycle(plan, d)
  {
    var c :| ClosesFrom(plan, id, c);
    var n := |c| - 1;
    assert c[0 + 1] in Edges(plan)[c[0]];
    if c[n] in c[1..n] {
      ClosesFurtherOn(plan, id, c);
    } else {
      assert c[..n] == [c[0]] + c[1..n];
      ClosesRound(plan, id, c);
    }
  }

  lemma {:induction false} NotBehindCycle(plan: Plan, env: Environment, done: Results, id: string)
    requires IsPartialSolution(plan, env, done)
    requires id in plan && DependenciesHaveResults(plan[id], done)
    ensures !BehindCycle(plan, id)
  {
    forall d | d in plan[id].dependsOn ensures !BehindCycle(plan, d) {
      assert Settled(plan, env, done, d);
    }
    if BehindCycle(plan, id) {
      CycleIsBehindDependency(plan, id);
      assert false;
    }
  }

  lemma {:induction false} OneMoreSettled(plan: Plan, env: Environment, done: Results, id: string)
    returns (more: Results)
    requires AllProper(plan) && IsPartialSolution(plan, env, done)
    requires id in plan && id !in done && DependenciesHaveResults(plan[id], done)
    ensures more.Keys == done.Keys + {id} && IsPartialSolution(plan, env, more)
  {
    more := done[id := Outcome(plan[id], done, env)];
    KeysAreIdentifiers(plan, done);
    KeysAreIdentifiers(plan, more);
    forall x | x in more ensures Settled(plan, env, more, x) && !BehindCycle(plan, x) {
      assert x in done ==> Settled(plan, env, done, x);
      OutcomeReadsDependencies(plan, x, done, more, env);
      NotBehindCycle(plan, env, done, x);
    }
  }

  function SkippedResult(id: string): StepResult {
    StepResult(id, Skipped, Obj([]), Some(DependencyUnavailable))
  }

  /** The results so far, and every other step skipped. */
  function SkippingRest(plan: Plan, done: Results): (results: Results)
    ensures results.Keys == plan.Keys
    ensures forall id :: id in plan && id in done ==> results[id] == done[id]
    ensures forall id :: id in plan && id !in done ==> results[id] == SkippedResult(id)
  {
    map id | id in plan :: if id in done then done[id] else SkippedResult(id)
  }

  /** When every other step waits for another, skipping them all is consistent. */
  lemma {:induction false} SkipTheRest(plan: Plan, env: Environment, done: Results, id: string)
    requires AllProper(plan) && IsPartialSolution(plan, env, done) && id in plan
    requires id !in done ==> !DependenciesHaveResults(plan[id], done)
    ensures Settled(plan, env, SkippingRest(plan, done), id)
  {
    var results := SkippingRest(plan, done);
    assert Proper(plan, id);
    if id in done {
      KeysAreIdentifiers(plan, done);
      KeysAreIdentifiers(plan, results);
      assert Settled(plan, env, done, id);
      OutcomeReadsDependencies(plan, id, done, results, env);
    } else {
      var d :| d in plan[id].dependsOn && d !in done;
      assert Unavailable(results[d].status);
      AnyUnavailableMeans(plan[id].dependsOn, results);
    }
  }

  lemma {:induction false} BehindCycleIsNotDone(plan: Plan, env: Environment, done: Results, id: string)
    requires IsPartialSolution(plan, env, done) && BehindCycle(plan, id)
    ensures id in plan && id !in done
  {
    CycleIsBehindDependency(plan, id);
    assert id in done ==> Settled(plan, env, done, id);
  }

  /**
   Every closed plan, with cycles or without, has a consistent assignment of results; one in
   which every step behind a cycle is skipped.
   */
  lemma {:induction false} ExtendToSolution(plan: Plan, env: Environment, done: Results) returns (results: Results)
    requires AllProper(plan) && IsPartialSolution(plan, env, done)
    ensures IsSolution(plan, env, results)
    ensures forall id :: BehindCycle(plan, id) ==> id in results && results[id] == SkippedResult(id)
    decreases plan.Keys - done.Keys
  {
    if id :| id in plan && id !in done && DependenciesHaveResults(plan[id], done) {
      var more := OneMoreSettled(plan, env, done, id);
      results := ExtendToSolution(plan, env, more);
    } else {
      results := SkippingRest(plan, done);
      forall id | id in plan ensures Settled(plan, env, results, id) { SkipTheRest(plan, env, done, id); }
      forall id | BehindCycle(plan, id) ensures id in plan && id !in done { BehindCycleIsNotDone(plan, env, done, id); }
    }
  }

  lemma {:induction false} EveryPlanHasSolution(plan: Plan, env: Environment) returns (results: Results)
    requires AllProper(plan)
    ensures IsSolution(plan, env, results)
    ensures forall id :: BehindCycle(plan, id) ==> id in results && results[id] == SkippedResult(id)
  {
    results := ExtendToSolution(plan, env, map[]);
  }

  // ---------- the results of a plan ----------

  /** The results of a plan: the one consistent assignment. */
  ghost function ResultsOf(plan: Plan, env: Environment): (results: Results)
    requires WellFounded(plan)
    ensures IsSolution(plan, env, results)
  {
    assert exists results :: IsSolution(plan, env, results) by {
      var found := EveryPlanHasSolution(plan, env);
    }
    var results :| IsSolution(plan, env, results);
    results
  }

  /** The evaluation is what the recursive evaluator computes, whatever ranks its recursion descends on. */
  lemma {:induction false} EvaluationIsRecursive(plan: Plan, rank: map<string, nat>, env: Environment, id: string)
    requires WellFounded(plan) && RanksDependencies(plan, rank) && id in plan
    ensures forall x :: x in plan ==> forall d :: d in plan[x].dependsOn ==> d in plan
    ensures ResultsOf(plan, env)[id] == Eval(plan, rank, env, id)
  {
    DependenciesAreClosed(plan);
    SolutionIsRecursive(plan, rank, env, ResultsOf(plan, env), id);
  }

  lemma {:induction false} SameStepsSamePlan(p: seq<Step>, q: seq<Step>)
    requires UniqueIds(p) && UniqueIds(q) && forall s :: s in p <==> s in q
    ensures ById(p) == ById(q)
  {
    forall id | id in ById(p) ensures id in ById(q) && ById(q)[id] == ById(p)[id] {
      var i :| 0 <= i < |q| && q[i] == ById(p)[id];
    }
    forall id | id in ById(q) ensures id in ById(p) {
      var i :| 0 <= i < |p| && p[i] == ById(q)[id];
    }
  }

  /** Listing the same steps in another order changes no result. */
  lemma {:induction false} OrderOfStepsIsIrrelevant(p: seq<Step>, q: seq<Step>, env: Environment)
    requires ValidPlan(p) && ValidPlan(q)
    requires forall s :: s in p <==> s in q
    ensures WellFounded(ById(p)) && WellFounded(ById(q))
    ensures ResultsOf(ById(p), env) == ResultsOf(ById(q), env)
  {
    SameStepsSamePlan(p, q);
    ValidPlanIsWellFounded(p);
  }

  // ---------- statuses ----------

  /** Agents report completion or failure and nothing else. */
  ghost predicate AgentsReport(env: Environment) {
    forall service, operation, arguments ::
      var reply := env.registry.execute(service, operation, arguments);
      reply.Replied? ==> reply.status in {Completed, Failed}
  }

  lemma {:induction false} StatusesOfEvaluation(plan: Plan, env: Environment, id: string)
    requires WellFounded(plan) && AgentsReport(env) && id in plan
    ensures ResultsOf(plan, env)[id].status in {Completed, Failed, Skipped, AwaitingApproval}
  {
    assert Settled(plan, env, ResultsOf(plan, env), id);
  }

  /** A step is not blocked, and so reads results, exactly when all its dependencies completed. */
  lemma {:induction false} OnlyCompletedDependenciesAreRead(plan: Plan, env: Environment, id: string)
    requires WellFounded(plan) && AgentsReport(env) && id in plan
    ensures var results := ResultsOf(plan, env);
            && DependenciesHaveResults(plan[id], results)
            && (!Dispose(plan[id], results, env).Blocked? <==>
                forall d :: d in plan[id].dependsOn ==> results[d].status == Completed)
  {
    assert Settled(plan, env, ResultsOf(plan, env), id);
    forall d | d in plan[id].dependsOn
      ensures ResultsOf(plan, env)[d].status in {Completed, Failed, Skipped, AwaitingApproval}
    {
      StatusesOfEvaluation(plan, env, d);
    }
    AnyUnavailableMeans(plan[id].dependsOn, ResultsOf(plan, env));
  }

  /** A dependency chain of skipped steps that ends in a failed or waiting one. */
  ghost predicate SkipCause(plan: Plan, results: Results, c: seq<string>) {
    && |c| >= 2
    && (forall i :: 0 <= i < |c| ==> c[i] in plan && c[i] in results)
    && (forall i :: 0 <= i < |c| - 1 ==> c[i + 1] in plan[c[i]].dependsOn && results[c[i]].status == Skipped)
    && results[c[|c| - 1]].status in {Failed, AwaitingApproval}
  }

  lemma {:induction false} SkippedIsBlocked(plan: Plan, env: Environment, id: string) returns (d: string)
    requires WellFounded(plan) && AgentsReport(env)
    requires id in plan && ResultsOf(plan, env)[id].status == Skipped
    ensures d in plan && d in plan[id].dependsOn && Unavailable(ResultsOf(plan, env)[d].status)
  {
    var results := ResultsOf(plan, env);
    assert Settled(plan, env, results, id);
    assert Dispose(plan[id], results, env).Blocked?;
    AnyUnavailableMeans(plan[id].dependsOn, results);
    d :| d in plan[id].dependsOn && Unavailable(results[d].status);
  }

  lemma {:induction false} SkippedHasCause(plan: Plan, rank: map<string, nat>, env: Environment, id: string)
    returns (c: seq<string>)
    requires WellFounded(plan) && RanksDependencies(plan, rank) && AgentsReport(env)
    requires id in plan && ResultsOf(plan, env)[id].status == Skipped
    ensures SkipCause(plan, ResultsOf(plan, env), c) && c[0] == id
    decreases rank[id]
  {
    var results := ResultsOf(plan, env);
    var d := SkippedIsBlocked(plan, env, id);
    if results[d].status == Skipped {
      var rest := SkippedHasCause(plan, rank, env, d);
      c := [id] + rest;
    } else {
      c := [id, d];
    }
  }

  /** The status an execution is committed with. */
  function FoldStatus(statuses: set<Status>): Status {
    if Failed in statuses then Failed
    else if AwaitingApproval in statuses then AwaitingApproval
    else Completed
  }

  ghost function Statuses(results: Results): set<Status> {
    set id | id in results :: results[id].status
  }

  /**
   The committed status says what happened to the steps: failed iff one failed, awaiting
   iff one awaits and none failed, completed iff every single step completed.
   */
  lemma {:induction false} CommittedStatusIsExact(plan: Plan, env: Environment)
    requires WellFounded(plan) && AgentsReport(env)
    ensures var results := ResultsOf(plan, env);
            var status := FoldStatus(Statuses(results));
            && (status == Failed <==> exists id :: id in plan && results[id].status == Failed)
            && (status == AwaitingApproval <==>
                  && (exists id :: id in plan && results[id].status == AwaitingApproval)
                  && forall id :: id in plan ==> results[id].status != Failed)
            && (status == Completed <==> forall id :: id in plan ==> results[id].status == Completed)
  {
    var results := ResultsOf(plan, env);
    forall id | id in plan ensures results[id].status in Statuses(results) {}
    if FoldStatus(Statuses(results)) == Completed {
      forall id | id in plan ensures results[id].status == Completed {
        StatusesOfEvaluation(plan, env, id);
        if results[id].status == Skipped {
          var rank :| RanksDependencies(plan, rank);
          var c := SkippedHasCause(plan, rank, env, id);
        }
      }
    }
  }

  /**
   In a valid plan only a padded reference can miss its step, and resolution is malformed only
   through a reference that meets an unreadable index.
   */
  lemma {:induction false} UnresolvedHasCause(plan: Plan, env: Environment, id: string)
    requires WellFounded(plan) && id in plan
    ensures var results := ResultsOf(plan, env);
            && DependenciesHaveResults(plan[id], results)
            && var d := Dispose(plan[id], results, env);
            && (d.Unresolved? && d.error.StepMissing? ==> HasPadded(plan[id].arguments))
            && (d.Unresolved? && d.error.Malformed? ==>
                  HasUnreadable(env.digits, plan[id].arguments, DataOf(results)))
  {
    var results := ResultsOf(plan, env);
    assert Settled(plan, env, results, id) && Proper(plan, id);
    KeysAreIdentifiers(plan, results);
    assert DataOf(results).Keys == results.Keys;
    ValidatedFailsIff(env.digits, plan[id].arguments, DataOf(results));
  }

  /** Agents report errors of their own, under codes that the executor does not use. */
  ghost predicate AgentsKeepTheirCodes(env: Environment) {
    forall service, operation, arguments ::
      var reply := env.registry.execute(service, operation, arguments);
      reply.Replied? && reply.error.Some? ==> reply.error.value.AgentError? && HasOwnCode(reply.error.value)
  }

  ghost predicate HasOwnCode(error: ErrorInfo) {
    forall e: ErrorInfo :: !e.AgentError? ==> ErrorCode(e) != ErrorCode(error)
  }

  /** What a step came to, as the cause of an error of the executor. */
  predicate Causes(step: Step, d: Disposition, env: Environment, e: ErrorInfo) {
    match e
    case DependencyUnavailable => d.Blocked?
    case OperationFailed => d.Dispatched? && env.registry.execute(step.service, step.operation, d.arguments).Raised?
    case ReferenceError(cause) => d.Unresolved? && SameCause(ReferenceError(d.error), e)
    case AgentError(_, _) => false
  }

  /** The code of a result's error tells what became of the step. */
  lemma {:induction false} CodeTellsCause(plan: Plan, env: Environment, id: string, e: ErrorInfo)
    requires WellFounded(plan) && AgentsKeepTheirCodes(env) && id in plan && !e.AgentError?
    ensures var results := ResultsOf(plan, env);
            && DependenciesHaveResults(plan[id], results)
            && var error := results[id].error;
            (error.Some? && ErrorCode(error.value) == ErrorCode(e)) <==>
              Causes(plan[id], Dispose(plan[id], results, env), env, e)
  {
    var results := ResultsOf(plan, env);
    assert Settled(plan, env, results, id);
    var error := results[id].error;
    if error.Some? && !error.value.AgentError? {
      CodesTellCausesApart(error.value, e);
    }
  }

  /** The details of a failed resolution name a reference of the step, and so one of its dependencies unless padded. */
  lemma {:induction false} DetailsNameReference(plan: Plan, env: Environment, id: string) returns (ref: Reference)
    requires WellFounded(plan) && id in plan
    requires ResultsOf(plan, env)[id].error.Some? && ResultsOf(plan, env)[id].error.value.ReferenceError?
    requires !ResultsOf(plan, env)[id].error.value.cause.Malformed?
    requires AgentsKeepTheirCodes(env)
    ensures ref in AllReferences(plan[id].arguments) && ref.target.Str?
              && (Padded(ref) || ref.target.s in plan[id].dependsOn)
    ensures var error := ResultsOf(plan, env)[id].error.value;
            && Lookup(ErrorDetails(error).fields, "source_step_id") == Some(ref.target)
            && Lookup(ErrorDetails(error).fields, "path") == Some(Arr(error.cause.path))
  {
    var results := ResultsOf(plan, env);
    assert Settled(plan, env, results, id) && Proper(plan, id);
    assert Dispose(plan[id], results, env).Unresolved?;
    ref := ErrorNamesReference(env.digits, plan[id].arguments, DataOf(results));
    FindAgrees(plan[id].arguments);
    var i :| 0 <= i < |AllReferences(plan[id].arguments)| && AllReferences(plan[id].arguments)[i] == ref;
    assert FindStepReferences(plan[id].arguments).value[i] in plan[id].dependsOn;
  }
}
