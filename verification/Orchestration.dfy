/**
 From a provider's replies to an executed plan: planning and the executor put together
 with the registry of the workspace agents.
 */
module Orchestration {
  import opened Text
  import opened References
  import opened Contracts
  import opened Operations
  import opened Evaluation
  import opened Executor
  import Planner
  import Routing

  /** The evaluation of a plan in an environment. */
  ghost function ResultsBy(env: Environment, steps: seq<Step>): Results
    requires WellFounded(ById(steps))
  {
    ResultsOf(ById(steps), env)
  }

  lemma {:induction false} CallsAreReads(executionId: nat, userId: string, clock: Clock, agent: Agent, env: Environment,
                                         results: Results, order: seq<Step>)
    requires env.registry == WorkspaceRegistry(clock, agent)
    ensures var run := RunOf(executionId, userId, env, results);
            forall c :: c in Calls(run, order) ==> (c.service, c.operation) !in APPROVAL_REQUIRED
  {
    CallsNeedNoApproval(executionId, userId, env, results, order);
  }

  /**
   A plan that planning lets through is never turned down by the executor, though nothing
   validates its graph again after the rewrite: it runs to the end, its results are those of
   the evaluation in plan order, and no operation that needs approval is called.
   */
  method AnswerQuery(session: Session, userId: string, clock: Clock, agent: Agent, env: Environment,
                     replies: seq<Option<seq<Step>>>, intent: Planner.Intent, request: Planner.Request)
    returns (plan: Result<seq<Step>, Planner.Fault>, outcome: Option<Outcome>)
    requires env.registry == WorkspaceRegistry(clock, agent)
    requires |replies| == 2
    requires forall i :: 0 <= i < |replies| && replies[i].Some? ==> AllFieldsValid(replies[i].value)
    modifies session
    ensures plan.Err? ==> outcome.None? && unchanged(session)
    ensures plan.Ok? ==>
      && ValidPlan(plan.value) && WellFounded(ById(plan.value))
      && var results := ResultsBy(env, plan.value);
      && (forall s :: s in plan.value ==> s.id in results)
      && outcome.Some? && outcome.value.Executed?
      && outcome.value.results == InPlanOrder(plan.value, results)
      && session.executions == old(session.executions) + [FoldStatus(Statuses(results))]
      && old(session.calls) <= session.calls
      && forall i :: |old(session.calls)| <= i < |session.calls| ==>
           (session.calls[i].service, session.calls[i].operation) !in APPROVAL_REQUIRED
  {
    var asked;
    plan, asked := Routing.CreatePlan(clock, replies, intent, request);
    if plan.Err? {
      return plan, None;
    }
    var executed;
    ghost var order, wave;
    executed, order, wave := Execute(session, userId, env, plan.value);
    outcome := Some(executed);
    ghost var results := ResultsOf(ById(plan.value), env);
    ghost var run := RunOf(executed.executionId, userId, env, results);
    CallsAreReads(executed.executionId, userId, clock, agent, env, results, order);
    NewCalls(old(session.calls), Calls(run, order), session.calls);
  }

  lemma {:induction false} NewCalls(before: seq<Call>, more: seq<Call>, after: seq<Call>)
    requires after == before + more
    ensures before <= after && forall i :: |before| <= i < |after| ==> after[i] in more
  {
    assert forall i :: |before| <= i < |after| ==> after[i] == more[i - |before|];
  }
}
