/**
 Approving and rejecting stored actions: what the executor stores and how it reads back, and
 the two requests as they run one at a time.
 */
module Approvals {
  import opened Text
  import opened Json
  import opened References
  import opened Contracts
  import opened Operations
  import opened Evaluation
  import opened Executor

  // ---------- the stored action ----------

  datatype Action = Action(service: Service, operation: string, arguments: Value)

  /** The proposed action as the executor stores it. */
  function Proposal(action: Action): Value {
    Obj([
      Field("service", Str(ServiceName(action.service))),
      Field("operation", Str(action.operation)),
      Field("arguments", action.arguments)
    ])
  }

  function ServiceOf(name: string): Option<Service> {
    if name == "gmail" then Some(Gmail)
    else if name == "google_calendar" then Some(Calendar)
    else if name == "google_drive" then Some(Drive)
    else if name == "workspace" then Some(Workspace)
    else None
  }

  /** Reading a stored action back; nothing if a key is missing or a value has the wrong type. */
  function ReadAction(proposal: Value): Option<Action> {
    if !proposal.Obj? then None
    else
      var service := GetOr(proposal.fields, "service", Null);
      var operation := GetOr(proposal.fields, "operation", Null);
      var arguments := GetOr(proposal.fields, "arguments", Null);
      if service.Str? && ServiceOf(service.s).Some? && operation.Str? && arguments.Obj?
      then Some(Action(ServiceOf(service.s).value, operation.s, arguments))
      else None
  }

  lemma {:induction false} ServiceNameRoundTrip(s: Service)
    ensures ServiceOf(ServiceName(s)) == Some(s)
  {
  }

  /** What approval executes is what the executor stored, exactly when the stored arguments are an object. */
  lemma {:induction false} StoredActionRoundTrip(action: Action)
    ensures ReadAction(Proposal(action)) == if action.arguments.Obj? then Some(action) else None
  {
    var fields := Proposal(action).fields;
    ServiceNameRoundTrip(action.service);
    assert "service" != "operation" && "service" != "arguments" && "operation" != "arguments";
    assert Lookup(fields, "service") == Some(fields[0].value);
    assert fields[1..][0] == fields[1] && fields[1..][1..][0] == fields[2];
    assert Lookup(fields, "operation") == Lookup(fields[1..], "operation") == Some(fields[1].value);
    assert Lookup(fields, "arguments") == Lookup(fields[1..][1..], "arguments") == Some(fields[2].value);
  }

  datatype Approval = Approval(executionId: nat, stepId: string, userId: string, status: ApprovalStatus,
    proposal: Value)

  function Stored(row: ApprovalRow): Approval {
    Approval(row.executionId, row.stepId, row.userId, row.status,
             Proposal(Action(row.service, row.operation, row.arguments)))
  }

  // ---------- one request at a time ----------

  type StepKey = (nat, string)

  datatype StepState = StepState(status: Status, data: Value, error: Option<ErrorInfo>)

  datatype Audit = ActionExecuted(approvalId: string, status: ApprovalStatus) | ActionRejected(approvalId: string)

  datatype Response =
    | NotFound
    | NoLongerPending
    | StoredActionInvalid
    | UnknownOperation
    | ActionFailed
    | StepNotFound
    | Settled(status: ApprovalStatus)

  /** The approval status an agent's reply leads to. */
  function ReplyStatus(status: Status): ApprovalStatus {
    if status == Completed then Approved else ApprovalFailed
  }

  ghost function StatusesIn(steps: map<StepKey, StepState>, executionId: nat): set<Status> {
    set key | key in steps && key.0 == executionId :: steps[key].status
  }

  /** Some step of the execution, leaving two steps out of account, has this status. */
  ghost predicate OtherHas(steps: map<StepKey, StepState>, a: StepKey, b: StepKey, status: Status) {
    exists key :: key in steps && key.0 == a.0 && key != a && key != b && steps[key].status == status
  }

  /** The approvals, step and execution tables, and the audit log. */
  class Desk {
    var approvals: map<string, Approval>
    var steps: map<StepKey, StepState>
    var executions: map<nat, Status>
    var audits: seq<Audit>

    constructor (approvals: map<string, Approval>, steps: map<StepKey, StepState>, executions: map<nat, Status>)
      ensures this.approvals == approvals && this.steps == steps && this.executions == executions && audits == []
    {
      this.approvals, this.steps, this.executions, audits := approvals, steps, executions, [];
    }

    /** The approval if the caller owns it and it is still pending, else the refusal. */
    function Pending(id: string, userId: string): (refusal: Option<Response>)
      reads this
      ensures refusal.None? <==> id in approvals && approvals[id].userId == userId && approvals[id].status == Awaiting
      ensures refusal == Some(NotFound) <==> id !in approvals || approvals[id].userId != userId
      ensures refusal == Some(NoLongerPending) <==>
                id in approvals && approvals[id].userId == userId && approvals[id].status != Awaiting
    {
      if id !in approvals || approvals[id].userId != userId then Some(NotFound)
      else if approvals[id].status != Awaiting then Some(NoLongerPending)
      else None
    }

    /** Everything an approval needs in order to be executed and recorded. */
    predicate CanSettle(id: string, userId: string, registry: Registry)
      reads this
    {
      && Pending(id, userId).None?
      && (approvals[id].executionId, approvals[id].stepId) in steps
      && var action := ReadAction(approvals[id].proposal);
      && action.Some? && registry.supports(action.value.service, action.value.operation)
      && registry.execute(action.value.service, action.value.operation, action.value.arguments).Replied?
    }

    /** What each answer to an approve request means; no two of the conditions hold together. */
    ghost predicate Means(response: Response, id: string, userId: string, registry: Registry)
      reads this
    {
      if Pending(id, userId).Some? then response == Pending(id, userId).value
      else
        var action := ReadAction(approvals[id].proposal);
        match response
        case StoredActionInvalid => action.None?
        case UnknownOperation => action.Some? && !registry.supports(action.value.service, action.value.operation)
        case ActionFailed =>
          && action.Some? && registry.supports(action.value.service, action.value.operation)
          && registry.execute(action.value.service, action.value.operation, action.value.arguments).Raised?
        case StepNotFound =>
          && action.Some? && registry.supports(action.value.service, action.value.operation)
          && registry.execute(action.value.service, action.value.operation, action.value.arguments).Replied?
          && (approvals[id].executionId, approvals[id].stepId) !in steps
        case Settled(_) => CanSettle(id, userId, registry)
        case _ => false
    }

    ghost function StatusesOf(executionId: nat): set<Status>
      reads this
    {
      StatusesIn(steps, executionId)
    }

    /** Recomputes an execution's status from its steps. */
    method RefreshExecution(executionId: nat)
      modifies this`executions
      ensures executionId in old(executions) ==>
        executions == old(executions)[executionId := FoldStatus(StatusesOf(executionId))]
      ensures executionId !in old(executions) ==> executions == old(executions)
    {
      if executionId !in executions {
        return;
      }
      var statuses := set key | key in steps && key.0 == executionId :: steps[key].status;
      executions := executions[executionId := FoldStatus(statuses)];
    }

    /**
     Approves and executes a stored action. Every refusal and failure leaves all tables as
     they were; success changes this approval, its step, its execution's status and the log.
     */
    method Approve(id: string, userId: string, registry: Registry) returns (response: Response)
      modifies this
      ensures response.Settled? <==> old(CanSettle(id, userId, registry))
      ensures !response.Settled? ==> unchanged(this)
      ensures old(Means(response, id, userId, registry))
      ensures response.Settled? ==>
        var approval := old(approvals[id]);
        var action := ReadAction(approval.proposal);
        && var reply := registry.execute(action.value.service, action.value.operation, action.value.arguments);
        var key := (approval.executionId, approval.stepId);
        && reply.Replied?
        && (response.status == Approved <==> reply.status == Completed)
        && (response.status == ApprovalFailed <==> reply.status != Completed)
        && approvals == old(approvals)[id := approval.(status := response.status)]
        && steps == old(steps)[key := StepState(reply.status, reply.data, reply.error)]
        && audits == old(audits) + [ActionExecuted(id, response.status)]
        && executions.Keys == old(executions).Keys
        && (forall e :: e in executions && e != approval.executionId ==> executions[e] == old(executions)[e])
        && (approval.executionId in executions ==>
              executions[approval.executionId] == FoldStatus(StatusesOf(approval.executionId)))
    {
      var refusal := Pending(id, userId);
      if refusal.Some? {
        return refusal.value;
      }
      var approval := approvals[id];
      var action := ReadAction(approval.proposal);
      if action.None? {
        return StoredActionInvalid;
      }
      if !registry.supports(action.value.service, action.value.operation) {
        return UnknownOperation;
      }
      var reply := registry.execute(action.value.service, action.value.operation, action.value.arguments);
      if reply.Raised? {
        return ActionFailed;
      }
      var key := (approval.executionId, approval.stepId);
      if key !in steps {
        return StepNotFound;
      }
      steps := steps[key := StepState(reply.status, reply.data, reply.error)];
      var status := ReplyStatus(reply.status);
      approvals := approvals[id := approval.(status := status)];
      audits := audits + [ActionExecuted(id, status)];
      RefreshExecution(approval.executionId);
      return Settled(status);
    }

    /** Rejects a stored action: no call is made, its step is skipped and its execution fails. */
    method Reject(id: string, userId: string) returns (response: Response)
      modifies this
      ensures response.Settled? <==>
        old(Pending(id, userId).None? && (approvals[id].executionId, approvals[id].stepId) in steps)
      ensures !response.Settled? ==> unchanged(this)
      ensures !response.Settled? ==>
                response == if old(Pending(id, userId)).Some? then old(Pending(id, userId)).value else StepNotFound
      ensures response.Settled? ==>
        var approval := old(approvals[id]);
        var key := (approval.executionId, approval.stepId);
        && response.status == Rejected
        && approvals == old(approvals)[id := approval.(status := Rejected)]
        && steps ==
             old(steps)[key := StepState(Skipped, old(steps)[key].data, Some(AgentError("approval_rejected", Obj([]))))]
        && audits == old(audits) + [ActionRejected(id)]
        && executions == (if approval.executionId in old(executions)
                          then old(executions)[approval.executionId := Failed] else old(executions))
        && (approval.executionId in executions ==>
              (executions[approval.executionId] == FoldStatus(StatusesOf(approval.executionId)) <==>
               OtherHas(old(steps), key, key, Failed)))
    {
      var refusal := Pending(id, userId);
      if refusal.Some? {
        return refusal.value;
      }
      var approval := approvals[id];
      var key := (approval.executionId, approval.stepId);
      if key !in steps {
        return StepNotFound;
      }
      approvals := approvals[id := approval.(status := Rejected)];
      steps := steps[key := StepState(Skipped, steps[key].data, Some(AgentError("approval_rejected", Obj([]))))];
      if approval.executionId in executions {
        executions := executions[approval.executionId := Failed];
      }
      audits := audits + [ActionRejected(id)];
      StatusesAfter(old(steps), steps, key, key);
      return Settled(Rejected);
    }
  }

  /** A request of a user: approval, with what the agents answer at that time, or rejection. */
  datatype Request =
    | ApproveRequest(id: string, userId: string, registry: Registry)
    | RejectRequest(id: string, userId: string)

  /** What the second of two requests for one approval is told, once the first has settled it. */
  predicate ToldSettled(first: Request, second: Request, response: Response) {
    response == if second.userId == first.userId then NoLongerPending else NotFound
  }

  /**
   Any sequence of requests, approvals and rejections of any actions in any order: once one has
   settled an approval, no later one settles it again, whatever the agents then answer.
   */
  method SettledOnce(desk: Desk, requests: seq<Request>) returns (responses: seq<Response>)
    modifies desk
    ensures |responses| == |requests|
    ensures forall i, j :: 0 <= i < j < |requests| && responses[i].Settled? && requests[j].id == requests[i].id ==>
              ToldSettled(requests[i], requests[j], responses[j])
    ensures forall id :: id in old(desk.approvals) && old(desk.approvals)[id].status != Awaiting ==>
              id in desk.approvals && desk.approvals[id] == old(desk.approvals)[id]
  {
    responses := [];
    for k := 0 to |requests|
      invariant |responses| == k
      invariant forall i :: 0 <= i < k && responses[i].Settled? ==> IsSettled(desk.approvals, requests[i])
      invariant forall i, j :: 0 <= i < j < k && responses[i].Settled? && requests[j].id == requests[i].id ==>
                  ToldSettled(requests[i], requests[j], responses[j])
      invariant forall id :: id in old(desk.approvals) && old(desk.approvals)[id].status != Awaiting ==>
                  id in desk.approvals && desk.approvals[id] == old(desk.approvals)[id]
    {
      var response := Serve(desk, requests[k]);
      responses := responses + [response];
    }
  }

  /** The approval is owned by who made the request, and no longer pending. */
  predicate IsSettled(approvals: map<string, Approval>, request: Request) {
    && request.id in approvals && approvals[request.id].userId == request.userId
    && approvals[request.id].status != Awaiting
  }

  method Serve(desk: Desk, request: Request) returns (response: Response)
    modifies desk
    ensures response.Settled? ==> IsSettled(desk.approvals, request)
    ensures request.id in old(desk.approvals) && old(desk.approvals)[request.id].status != Awaiting ==>
              response == if old(desk.approvals)[request.id].userId == request.userId then NoLongerPending else NotFound
    ensures forall id :: id in old(desk.approvals) && old(desk.approvals)[id].status != Awaiting ==>
              id in desk.approvals && desk.approvals[id] == old(desk.approvals)[id]
  {
    match request
    case ApproveRequest(id, userId, registry) => response := desk.Approve(id, userId, registry);
    case RejectRequest(id, userId) => response := desk.Reject(id, userId);
  }

  /** What becomes of the statuses of an execution when two of its steps, or one, are set. */
  lemma {:induction false} StatusesAfter(before: map<StepKey, StepState>, after: map<StepKey, StepState>, a: StepKey,
                                         b: StepKey)
    requires a in before && b in before && a.0 == b.0 && after.Keys == before.Keys
    requires forall key :: key in before && key != a && key != b ==> after[key] == before[key]
    ensures forall status :: status in StatusesIn(after, a.0) <==>
              status == after[a].status || status == after[b].status || OtherHas(before, a, b, status)
  {
    assert a in after && b in after;
    forall status | OtherHas(before, a, b, status) ensures status in StatusesIn(after, a.0) {
      var key :| key in before && key.0 == a.0 && key != a && key != b && before[key].status == status;
      assert key in after && after[key].status == status;
    }
    forall status | status in StatusesIn(after, a.0)
      ensures status == after[a].status || status == after[b].status || OtherHas(before, a, b, status)
    {
      var key :| key in after && key.0 == a.0 && after[key].status == status;
      assert key in before;
    }
  }

  /** The fold once one of two steps is skipped. */
  lemma {:induction false} FoldAfterSkip(before: map<StepKey, StepState>, after: map<StepKey, StepState>, a: StepKey,
                                         b: StepKey)
    requires a in before && b in before && a.0 == b.0 && after.Keys == before.Keys && after[a].status == Skipped
    requires forall key :: key in before && key != a && key != b ==> after[key] == before[key]
    ensures var fold, status := FoldStatus(StatusesIn(after, a.0)), after[b].status;
            && (fold == Failed <==> status == Failed || OtherHas(before, a, b, Failed))
            && (fold == Completed <==>
                  && status !in {Failed, AwaitingApproval}
                  && !OtherHas(before, a, b, Failed) && !OtherHas(before, a, b, AwaitingApproval))
  {
    StatusesAfter(before, after, a, b);
  }

  /**
   A rejection fails the execution, but only its steps are remembered: after a sibling is
   approved, the execution is still failed exactly when the sibling failed or some third step
   had failed, and completed exactly when neither the sibling nor a third step failed or waits.
   */
  method RejectThenApprove(desk: Desk, x: string, y: string, userId: string, registry: Registry)
    returns (status: Status)
    requires x != y && desk.Pending(x, userId).None? && desk.CanSettle(y, userId, registry)
    requires var a, b := desk.approvals[x], desk.approvals[y];
             && a.executionId == b.executionId && a.stepId != b.stepId
             && a.executionId in desk.executions && (a.executionId, a.stepId) in desk.steps
    modifies desk
    ensures var a, b := old(desk.approvals[x]), old(desk.approvals[y]);
            var e, key, sibling := a.executionId, (a.executionId, a.stepId), (b.executionId, b.stepId);
            var action := ReadAction(b.proposal).value;
            && status == registry.execute(action.service, action.operation, action.arguments).status
            && x in desk.approvals && desk.approvals[x].status == Rejected
            && key in desk.steps && desk.steps[key].status == Skipped
            && e in desk.executions
            && (desk.executions[e] == Failed <==> status == Failed || OtherHas(old(desk.steps), key, sibling, Failed))
            && (desk.executions[e] == Completed <==>
                  && status !in {Failed, AwaitingApproval}
                  && !OtherHas(old(desk.steps), key, sibling, Failed)
                  && !OtherHas(old(desk.steps), key, sibling, AwaitingApproval))
  {
    var e, key := desk.approvals[x].executionId, (desk.approvals[x].executionId, desk.approvals[x].stepId);
    var sibling := (e, desk.approvals[y].stepId);
    var rejected := desk.Reject(x, userId);
    var approved := desk.Approve(y, userId, registry);
    FoldAfterSkip(old(desk.steps), desk.steps, key, sibling);
    status := desk.steps[sibling].status;
  }

  // ---------- what the executor stored ----------

  /**
   Every approval row of an executed plan reads back as the action it was asked for, names a
   supported operation, and has an awaiting step row of its own.
   */
  lemma {:induction false} StoredApprovalIsGood(clock: Clock, agent: Agent, env: Environment, executionId: nat,
                                                userId: string, steps: seq<Step>, order: seq<Step>, row: ApprovalRow)
    returns (own: StepRow)
    requires WellFounded(ById(steps)) && UniqueIds(steps) && IsExecutionOrder(steps, order)
    requires env.registry == WorkspaceRegistry(clock, agent) && env.registry.validatePlan(steps) == Valid
    requires row in Executor.Approvals(RunOf(executionId, userId, env, ResultsOf(ById(steps), env)), order)
    ensures ReadAction(Stored(row).proposal) == Some(Action(row.service, row.operation, row.arguments))
    ensures env.registry.supports(row.service, row.operation)
    ensures own in Rows(RunOf(executionId, userId, env, ResultsOf(ById(steps), env)), order)
    ensures own.executionId == row.executionId && own.stepId == row.stepId && own.status == AwaitingApproval
  {
    var results := ResultsOf(ById(steps), env);
    own := ApprovalHasStepRow(executionId, userId, env, results, order, row);
    forall s | s in order ensures DependenciesHaveResults(s, results) {
      assert s in steps;
      var i :| 0 <= i < |steps| && steps[i] == s;
      assert ById(steps)[s.id] == s;
      assert Evaluation.Settled(ById(steps), env, results, s.id);
    }
    ApprovalsAreGatedSteps(executionId, userId, env, results, order, row);
    var step :| step in order && Resolve(env.digits, step.arguments, DataOf(results)) == Ok(row.arguments)
                && row.service == step.service && row.operation == step.operation;
    var i :| 0 <= i < |steps| && steps[i] == step;
    ValidPlanHasValidSteps(clock, steps);
    ResolvedArgumentsKeepKeys(env.digits, clock, step.service, step.operation, step.arguments.fields, DataOf(results));
    StoredActionRoundTrip(Action(row.service, row.operation, row.arguments));
  }

  /**
   So an approve request for it, on tables that hold the run's steps, is never told that the
   stored action is invalid, the operation unknown or the step missing: while it is pending, it
   settles exactly when the agent replies.
   */
  lemma {:induction false} StoredApprovalIsAnswered(clock: Clock, agent: Agent, env: Environment, executionId: nat,
                                                    userId: string, steps: seq<Step>, order: seq<Step>,
                                                    row: ApprovalRow, desk: Desk, id: string,
                                                    caller: string, response: Response)
    requires WellFounded(ById(steps)) && UniqueIds(steps) && IsExecutionOrder(steps, order)
    requires env.registry == WorkspaceRegistry(clock, agent) && env.registry.validatePlan(steps) == Valid
    requires row in Executor.Approvals(RunOf(executionId, userId, env, ResultsOf(ById(steps), env)), order)
    requires forall r :: r in Rows(RunOf(executionId, userId, env, ResultsOf(ById(steps), env)), order) ==>
               (r.executionId, r.stepId) in desk.steps
    requires id in desk.approvals && desk.approvals[id] == Stored(row).(status := desk.approvals[id].status)
    requires desk.Means(response, id, caller, env.registry)
    ensures response in {NotFound, NoLongerPending, ActionFailed} || response.Settled?
    ensures desk.Pending(id, caller).None? ==>
              (response.Settled? <==> env.registry.execute(row.service, row.operation, row.arguments).Replied?)
  {
    var own := StoredApprovalIsGood(clock, agent, env, executionId, userId, steps, order, row);
  }
}
