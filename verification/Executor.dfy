/**
 The wave executor. It runs a validated plan against a registry and writes its step rows,
 approvals and status to a session; its results are those of the recursive evaluator.
 */
module Executor {
  import opened Text
  import opened Json
  import opened References
  import opened Substitution
  import opened Graph
  import opened Contracts
  import opened Operations
  import opened Evaluation
  import opened Waves

  // ---------- persisted rows ----------

  datatype StepRow = StepRow(
    executionId: nat, stepId: string, service: Service, operation: string,
    status: Status, arguments: Value, data: Value, error: Option<ErrorInfo>)

  datatype ApprovalStatus = Awaiting | Approved | ApprovalFailed | Rejected

  datatype ApprovalRow = ApprovalRow(
    id: string, executionId: nat, stepId: string, userId: string, status: ApprovalStatus,
    service: Service, operation: string, arguments: Value)

  /** A call handed to the registry. */
  datatype Call = Call(executionId: nat, stepId: string, service: Service, operation: string, arguments: Value)

  /** The database session, and the log of registry calls made through it. */
  class Session {
    var executions: seq<Status>
    var stepRows: seq<StepRow>
    var approvals: seq<ApprovalRow>
    ghost var calls: seq<Call>

    constructor ()
      ensures executions == [] && stepRows == [] && approvals == [] && calls == []
    {
      executions, stepRows, approvals, calls := [], [], [], [];
    }
  }

  // ---------- what a run leaves behind, step by step ----------

  /** The fixed surroundings of one run, and what each of its steps comes to. */
  datatype Run = Run(
    executionId: nat, userId: string, approvalId: string -> string,
    fate: Step -> Disposition, result: Step -> StepResult)

  /** What each step comes to, given the results of the whole run. */
  function RunOf(executionId: nat, userId: string, env: Environment, results: Results): Run {
    var fate := (step: Step) =>
      if DependenciesHaveResults(step, results) then Dispose(step, results, env) else Blocked;
    Run(executionId, userId, env.approvalId, fate, (step: Step) => ResultOf(step, fate(step), env))
  }

  /** The run's fates and results are consistent with its surroundings. */
  ghost predicate RunsIn(run: Run, executionId: nat, userId: string, env: Environment) {
    && run.executionId == executionId && run.userId == userId && run.approvalId == env.approvalId
    && forall step {:trigger run.result(step)} :: run.result(step) == ResultOf(step, run.fate(step), env)
  }

  function FinalArguments(step: Step, d: Disposition): Value {
    if d.Gated? || d.Dispatched? then d.arguments else step.arguments
  }

  function RowOf(run: Run, step: Step): StepRow {
    var d, result := run.fate(step), run.result(step);
    StepRow(run.executionId, step.id, step.service, step.operation, result.status,
            FinalArguments(step, d), result.data, result.error)
  }

  function ApprovalsOf(run: Run, step: Step): seq<ApprovalRow> {
    var d := run.fate(step);
    if d.Gated? then
      [ApprovalRow(run.approvalId(step.id), run.executionId, step.id, run.userId, Awaiting,
                   step.service, step.operation, d.arguments)]
    else []
  }

  function CallsOf(run: Run, step: Step): seq<Call> {
    var d := run.fate(step);
    if d.Dispatched? then [Call(run.executionId, step.id, step.service, step.operation, d.arguments)] else []
  }

  function Rows(run: Run, order: seq<Step>): seq<StepRow> {
    if order == [] then [] else Rows(run, order[..|order| - 1]) + [RowOf(run, order[|order| - 1])]
  }

  function Approvals(run: Run, order: seq<Step>): seq<ApprovalRow> {
    if order == [] then [] else Approvals(run, order[..|order| - 1]) + ApprovalsOf(run, order[|order| - 1])
  }

  function Calls(run: Run, order: seq<Step>): seq<Call> {
    if order == [] then [] else Calls(run, order[..|order| - 1]) + CallsOf(run, order[|order| - 1])
  }

  function ApprovalIds(approvals: seq<ApprovalRow>): seq<string> {
    if approvals == [] then [] else ApprovalIds(approvals[..|approvals| - 1]) + [approvals[|approvals| - 1].id]
  }

  lemma {:induction false} Assoc<T>(a: seq<T>, b: seq<T>, c: seq<T>)
    ensures a + b + c == a + (b + c)
  {
  }

  /** One more step at the end of the order. */
  lemma {:induction false} Extend(run: Run, order: seq<Step>, step: Step)
    ensures Rows(run, order + [step]) == Rows(run, order) + [RowOf(run, step)]
    ensures Approvals(run, order + [step]) == Approvals(run, order) + ApprovalsOf(run, step)
    ensures Calls(run, order + [step]) == Calls(run, order) + CallsOf(run, step)
  {
    assert (order + [step])[..|order|] == order;
  }

  // ---------- one wave ----------

  datatype WaveEntry = WaveEntry(step: Step, result: StepResult, approvalId: Option<string>, arguments: Value)

  function EntryOf(run: Run, step: Step): WaveEntry {
    var d := run.fate(step);
    WaveEntry(step, run.result(step), if d.Gated? then Some(run.approvalId(step.id)) else None,
              FinalArguments(step, d))
  }

  ghost predicate Entries(run: Run, wave: seq<WaveEntry>, done: seq<Step>) {
    |wave| == |done| && forall k :: 0 <= k < |wave| ==> wave[k] == EntryOf(run, done[k])
  }

  /** The results so far decide the fate of every ready step. */
  ghost predicate AllDecided(run: Run, ready: seq<Step>, results: Results, env: Environment) {
    forall s {:trigger DecidedStep(run, s, results, env)} ::
      s in ready ==> DecidedStep(run, s, results, env)
  }

  ghost predicate DecidedStep(run: Run, s: Step, results: Results, env: Environment) {
    DependenciesHaveResults(s, results) && Dispose(s, results, env) == run.fate(s)
  }

  /** The steps settled at once and the steps handed to agents, in the order they are met. */
  function Immediate(run: Run, ready: seq<Step>): seq<Step> {
    if ready == [] then []
    else
      var last := ready[|ready| - 1];
      Immediate(run, ready[..|ready| - 1]) + if run.fate(last).Dispatched? then [] else [last]
  }

  function Deferred(run: Run, ready: seq<Step>): seq<Step> {
    if ready == [] then []
    else
      var last := ready[|ready| - 1];
      Deferred(run, ready[..|ready| - 1]) + if run.fate(last).Dispatched? then [last] else []
  }

  lemma {:induction false} PartsExtend(run: Run, ready: seq<Step>, i: nat)
    requires i < |ready|
    ensures run.fate(ready[i]).Dispatched? ==>
      && Immediate(run, ready[..i + 1]) == Immediate(run, ready[..i])
      && Deferred(run, ready[..i + 1]) == Deferred(run, ready[..i]) + [ready[i]]
    ensures !run.fate(ready[i]).Dispatched? ==>
      && Immediate(run, ready[..i + 1]) == Immediate(run, ready[..i]) + [ready[i]]
      && Deferred(run, ready[..i + 1]) == Deferred(run, ready[..i])
  {
    assert ready[..i + 1][..i] == ready[..i];
  }

  lemma {:induction false} ClassifyExtend(run: Run, ready: seq<Step>, i: nat)
    requires i < |ready|
    ensures Approvals(run, Immediate(run, ready[..i + 1])) ==
              Approvals(run, Immediate(run, ready[..i])) + ApprovalsOf(run, ready[i])
  {
    PartsExtend(run, ready, i);
    var before := Immediate(run, ready[..i]);
    if run.fate(ready[i]).Dispatched? {
      assert Approvals(run, before) + [] == Approvals(run, before);
    } else {
      Extend(run, before, ready[i]);
    }
  }

  /** A step that is not ready to be called: skipped, unresolved, or waiting for approval. */
  method Settle(session: Session, ghost run: Run, executionId: nat, userId: string, env: Environment, step: Step,
                results: Results)
    returns (entry: WaveEntry, dispatch: bool)
    requires RunsIn(run, executionId, userId, env)
    requires DecidedStep(run, step, results, env)
    modifies session`approvals
    ensures dispatch <==> run.fate(step).Dispatched?
    ensures dispatch ==> entry.step == step && entry.arguments == run.fate(step).arguments
    ensures !dispatch ==> entry == EntryOf(run, step)
    ensures session.approvals == old(session.approvals) + ApprovalsOf(run, step)
  {
    var nothing := StepResult(step.id, Pending, Obj([]), None);
    if AnyUnavailable(step.dependsOn, results) {
      var skipped := StepResult(step.id, Skipped, Obj([]), Some(DependencyUnavailable));
      return WaveEntry(step, skipped, None, step.arguments), false;
    }
    var resolved := Resolve(env.digits, step.arguments, DataOf(results));
    if resolved.Err? {
      var failed := StepResult(step.id, Failed, Obj([]), Some(ReferenceError(resolved.error)));
      return WaveEntry(step, failed, None, step.arguments), false;
    }
    if env.registry.requiresApproval(step.service, step.operation) {
      var approval := ApprovalRow(env.approvalId(step.id), executionId, step.id, userId, Awaiting,
                                  step.service, step.operation, resolved.value);
      session.approvals := session.approvals + [approval];
      var awaiting := StepResult(step.id, AwaitingApproval, ApprovalData(approval.id), None);
      return WaveEntry(step, awaiting, Some(approval.id), resolved.value), false;
    }
    return WaveEntry(step, nothing, None, resolved.value), true;
  }

  /** The loop over the ready steps. */
  method Classify(session: Session, ghost run: Run, executionId: nat, userId: string, env: Environment,
                  ready: seq<Step>, results: Results)
    returns (wave: seq<WaveEntry>, executable: seq<(Step, Value)>)
    requires RunsIn(run, executionId, userId, env)
    requires AllDecided(run, ready, results, env)
    modifies session`approvals
    ensures Entries(run, wave, Immediate(run, ready))
    ensures Executable(run, executable, Deferred(run, ready))
    ensures session.approvals == old(session.approvals) + Approvals(run, Immediate(run, ready))
  {
    wave, executable := [], [];
    for i := 0 to |ready|
      invariant Classified(run, wave, executable, ready[..i])
      invariant session.approvals == old(session.approvals) + Approvals(run, Immediate(run, ready[..i]))
    {
      ClassifyExtend(run, ready, i);
      Assoc(old(session.approvals), Approvals(run, Immediate(run, ready[..i])), ApprovalsOf(run, ready[i]));
      assert DecidedStep(run, ready[i], results, env);
      var entry, dispatch := Settle(session, run, executionId, userId, env, ready[i], results);
      if dispatch {
        ClassifyDispatched(run, wave, executable, ready, i);
        executable := executable + [(ready[i], entry.arguments)];
      } else {
        ClassifySettled(run, wave, executable, ready, i);
        wave := wave + [entry];
      }
    }
    assert ready[..|ready|] == ready;
  }

  ghost predicate Classified(run: Run, wave: seq<WaveEntry>, executable: seq<(Step, Value)>, ready: seq<Step>) {
    Entries(run, wave, Immediate(run, ready)) && Executable(run, executable, Deferred(run, ready))
  }

  lemma {:induction false} ClassifyDispatched(run: Run, wave: seq<WaveEntry>, executable: seq<(Step, Value)>,
                                              ready: seq<Step>, i: nat)
    requires i < |ready| && Classified(run, wave, executable, ready[..i]) && run.fate(ready[i]).Dispatched?
    ensures Classified(run, wave, executable + [(ready[i], run.fate(ready[i]).arguments)], ready[..i + 1])
  {
    PartsExtend(run, ready, i);
  }

  lemma {:induction false} ClassifySettled(run: Run, wave: seq<WaveEntry>, executable: seq<(Step, Value)>,
                                           ready: seq<Step>, i: nat)
    requires i < |ready| && Classified(run, wave, executable, ready[..i]) && !run.fate(ready[i]).Dispatched?
    ensures Classified(run, wave + [EntryOf(run, ready[i])], executable, ready[..i + 1])
  {
    PartsExtend(run, ready, i);
  }

  ghost predicate Executable(run: Run, executable: seq<(Step, Value)>, deferred: seq<Step>) {
    && |executable| == |deferred|
    && forall k :: 0 <= k < |deferred| ==>
         run.fate(deferred[k]).Dispatched? && executable[k] == (deferred[k], run.fate(deferred[k]).arguments)
  }

  /** Each reply is the agent's answer to the call in its place. */
  ghost predicate AreReplies(env: Environment, executable: seq<(Step, Value)>, replies: seq<AgentReply>) {
    && |replies| == |executable|
    && forall k :: 0 <= k < |replies| ==>
         replies[k] == env.registry.execute(executable[k].0.service, executable[k].0.operation, executable[k].1)
  }

  /** One more call at the end of the log. */
  lemma {:induction false} CallsNext(run: Run, executable: seq<(Step, Value)>, deferred: seq<Step>, i: nat,
                                     before: seq<Call>)
    requires i < |deferred| && Executable(run, executable, deferred)
    ensures var (step, arguments) := executable[i];
            before + Calls(run, deferred[..i]) +
              [Call(run.executionId, step.id, step.service, step.operation, arguments)]
            == before + Calls(run, deferred[..i + 1])
  {
    Extend(run, deferred[..i], deferred[i]);
    assert deferred[..i + 1] == deferred[..i] + [deferred[i]];
    Assoc(before, Calls(run, deferred[..i]), CallsOf(run, deferred[i]));
  }

  /** Calls the agents of a wave; replies come back in the order of the calls. */
  method Gather(session: Session, ghost run: Run, ghost executionId: nat, env: Environment,
                executable: seq<(Step, Value)>, ghost deferred: seq<Step>)
    returns (replies: seq<AgentReply>)
    requires run.executionId == executionId && Executable(run, executable, deferred)
    modifies session`calls
    ensures AreReplies(env, executable, replies)
    ensures session.calls == old(session.calls) + Calls(run, deferred)
  {
    replies := [];
    for i := 0 to |executable|
      invariant AreReplies(env, executable[..i], replies)
      invariant session.calls == old(session.calls) + Calls(run, deferred[..i])
    {
      var (step, arguments) := executable[i];
      replies := replies + [env.registry.execute(step.service, step.operation, arguments)];
      CallsNext(run, executable, deferred, i, old(session.calls));
      session.calls := session.calls + [Call(executionId, step.id, step.service, step.operation, arguments)];
    }
    assert deferred[..|deferred|] == deferred && executable[..|executable|] == executable;
  }

  /** Calls the agents of a wave and pairs their replies with the steps. */
  method Dispatch(session: Session, ghost run: Run, ghost executionId: nat, ghost userId: string, env: Environment,
                  executable: seq<(Step, Value)>, ghost deferred: seq<Step>)
    returns (entries: seq<WaveEntry>)
    requires RunsIn(run, executionId, userId, env) && Executable(run, executable, deferred)
    modifies session`calls
    ensures Entries(run, entries, deferred)
    ensures session.calls == old(session.calls) + Calls(run, deferred)
  {
    var replies := Gather(session, run, executionId, env, executable, deferred);
    entries := [];
    for i := 0 to |executable|
      invariant Entries(run, entries, deferred[..i])
    {
      var (step, arguments) := executable[i];
      entries := entries + [WaveEntry(step, ReplyResult(step, replies[i]), None, arguments)];
    }
    assert deferred[..|deferred|] == deferred;
  }

  /** Records one result: keeps it, pops its step, collects its approval id, writes its step row. */
  method RecordOne(session: Session, ghost run: Run, executionId: nat, entry: WaveEntry, ghost step: Step,
                   results: Results, remaining: seq<Step>, approvalIds: seq<string>)
    returns (results': Results, remaining': seq<Step>, approvalIds': seq<string>)
    requires run.executionId == executionId && entry == EntryOf(run, step)
    modifies session`stepRows
    ensures results' == results[step.id := run.result(step)]
    ensures remaining' == Without(remaining, step.id)
    ensures approvalIds' == approvalIds + GatedIds(run, step)
    ensures session.stepRows == old(session.stepRows) + [RowOf(run, step)]
  {
    results' := results[entry.step.id := entry.result];
    remaining' := Without(remaining, entry.step.id);
    approvalIds' := approvalIds;
    if entry.approvalId.Some? {
      approvalIds' := approvalIds' + [entry.approvalId.value];
    }
    var row := StepRow(executionId, entry.step.id, entry.step.service, entry.step.operation, entry.result.status,
                       entry.arguments, entry.result.data, entry.result.error);
    session.stepRows := session.stepRows + [row];
  }

  function GatedIds(run: Run, step: Step): seq<string> {
    if run.fate(step).Gated? then [run.approvalId(step.id)] else []
  }

  /** The results with those of further steps added. */
  ghost function Recorded(run: Run, results: Results, done: seq<Step>): Results {
    if done == [] then results
    else
      var last := done[|done| - 1];
      Recorded(run, results, done[..|done| - 1])[last.id := run.result(last)]
  }

  /** What has become of results, remaining steps and approval ids once `done` is recorded. */
  ghost predicate IsRecorded(run: Run, steps: seq<Step>, done: seq<Step>, results: Results, approvalIds: seq<string>,
                             results': Results, remaining': seq<Step>, approvalIds': seq<string>)
  {
    && results' == Recorded(run, results, done)
    && remaining' == Waves.Pending(steps, results'.Keys)
    && approvalIds' == approvalIds + ApprovalIds(Approvals(run, done))
  }

  lemma {:induction false} RecordedNext(run: Run, steps: seq<Step>, done: seq<Step>, i: nat, results: Results,
                                        approvalIds: seq<string>, results': Results, remaining': seq<Step>,
                                        approvalIds': seq<string>)
    requires i < |done| && IsRecorded(run, steps, done[..i], results, approvalIds, results', remaining', approvalIds')
    ensures IsRecorded(run, steps, done[..i + 1], results, approvalIds, results'[done[i].id := run.result(done[i])],
                       Without(remaining', done[i].id), approvalIds' + GatedIds(run, done[i]))
  {
    RecordExtend(run, results, done, i);
    Assoc(approvalIds, ApprovalIds(Approvals(run, done[..i])), GatedIds(run, done[i]));
    PopPending(steps, results'.Keys, done[i].id);
  }

  lemma {:induction false} RowsNext(run: Run, done: seq<Step>, i: nat, before: seq<StepRow>)
    requires i < |done|
    ensures before + Rows(run, done[..i]) + [RowOf(run, done[i])] == before + Rows(run, done[..i + 1])
  {
    assert done[..i + 1] == done[..i] + [done[i]];
    Extend(run, done[..i], done[i]);
    Assoc(before, Rows(run, done[..i]), [RowOf(run, done[i])]);
  }

  /** Records the results of a wave. */
  method Record(session: Session, ghost run: Run, executionId: nat, ghost steps: seq<Step>, wave: seq<WaveEntry>,
                ghost done: seq<Step>, results: Results, remaining: seq<Step>, approvalIds: seq<string>)
    returns (results': Results, remaining': seq<Step>, approvalIds': seq<string>)
    requires run.executionId == executionId && Entries(run, wave, done)
    requires remaining == Waves.Pending(steps, results.Keys)
    modifies session`stepRows
    ensures IsRecorded(run, steps, done, results, approvalIds, results', remaining', approvalIds')
    ensures session.stepRows == old(session.stepRows) + Rows(run, done)
  {
    results', remaining', approvalIds' := results, remaining, approvalIds;
    for i := 0 to |wave|
      invariant IsRecorded(run, steps, done[..i], results, approvalIds, results', remaining', approvalIds')
      invariant session.stepRows == old(session.stepRows) + Rows(run, done[..i])
    {
      RecordedNext(run, steps, done, i, results, approvalIds, results', remaining', approvalIds');
      RowsNext(run, done, i, old(session.stepRows));
      results', remaining', approvalIds' :=
        RecordOne(session, run, executionId, wave[i], done[i], results', remaining', approvalIds');
    }
    assert done[..|done|] == done;
  }

  ghost predicate Within(results: Results, final: Results) {
    forall id :: id in results ==> id in final && results[id] == final[id]
  }

  /** The final results hold what each of these steps comes to. */
  ghost predicate Foreseen(run: Run, done: seq<Step>, final: Results) {
    forall s :: s in done ==> s.id in final && final[s.id] == run.result(s)
  }

  lemma {:induction false} RecordedKeys(run: Run, results: Results, done: seq<Step>)
    ensures Recorded(run, results, done).Keys == results.Keys + IdSet(done)
  {
    if done != [] {
      var front, last := done[..|done| - 1], done[|done| - 1];
      RecordedKeys(run, results, front);
      assert forall s :: s in done <==> s in front || s == last;
    }
  }

  lemma {:induction false} RecordedIsWithin(run: Run, results: Results, done: seq<Step>, final: Results)
    requires Within(results, final) && Foreseen(run, done, final)
    ensures Within(Recorded(run, results, done), final)
  {
    if done != [] {
      RecordedIsWithin(run, results, done[..|done| - 1], final);
      assert done[|done| - 1] in done;
    }
  }

  lemma {:induction false} RecordExtend(run: Run, results: Results, done: seq<Step>, i: nat)
    requires i < |done|
    ensures Recorded(run, results, done[..i + 1]) ==
              Recorded(run, results, done[..i])[done[i].id := run.result(done[i])]
    ensures Recorded(run, results, done[..i + 1]).Keys == Recorded(run, results, done[..i]).Keys + {done[i].id}
    ensures ApprovalIds(Approvals(run, done[..i + 1])) ==
            ApprovalIds(Approvals(run, done[..i])) + GatedIds(run, done[i])
  {
    assert done[..i + 1] == done[..i] + [done[i]];
    assert done[..i + 1][..i] == done[..i];
    Extend(run, done[..i], done[i]);
    ApprovalIdsExtend(Approvals(run, done[..i]), ApprovalsOf(run, done[i]));
    var last := ApprovalsOf(run, done[i]);
    if run.fate(done[i]).Gated? {
      assert last[..0] == [];
      assert ApprovalIds(last) == [] + [last[0].id];
    }
  }

  lemma {:induction false} ApprovalIdsExtend(a: seq<ApprovalRow>, b: seq<ApprovalRow>)
    requires |b| <= 1
    ensures ApprovalIds(a + b) == ApprovalIds(a) + ApprovalIds(b)
  {
    if b == [] {
      assert a + b == a;
    } else {
      assert (a + b)[..|a|] == a && b[..0] == [];
    }
  }

  // ---------- the order of a run ----------

  lemma {:induction false} AppendOneMore(run: Run, a: seq<Step>, front: seq<Step>, last: Step)
    requires Rows(run, a + front) == Rows(run, a) + Rows(run, front)
    requires Approvals(run, a + front) == Approvals(run, a) + Approvals(run, front)
    requires Calls(run, a + front) == Calls(run, a) + Calls(run, front)
    ensures Rows(run, a + front + [last]) == Rows(run, a) + Rows(run, front + [last])
    ensures Approvals(run, a + front + [last]) == Approvals(run, a) + Approvals(run, front + [last])
    ensures Calls(run, a + front + [last]) == Calls(run, a) + Calls(run, front + [last])
  {
    Extend(run, a + front, last);
    Extend(run, front, last);
    Assoc(Rows(run, a), Rows(run, front), [RowOf(run, last)]);
    Assoc(Approvals(run, a), Approvals(run, front), ApprovalsOf(run, last));
    Assoc(Calls(run, a), Calls(run, front), CallsOf(run, last));
  }

  lemma {:induction false} AppendNothing(run: Run, a: seq<Step>)
    ensures Rows(run, a + []) == Rows(run, a) + Rows(run, [])
    ensures Approvals(run, a + []) == Approvals(run, a) + Approvals(run, [])
    ensures Calls(run, a + []) == Calls(run, a) + Calls(run, [])
  {
    assert a + [] == a;
  }

  lemma {:induction false} Append(run: Run, a: seq<Step>, b: seq<Step>)
    ensures Rows(run, a + b) == Rows(run, a) + Rows(run, b)
    ensures Approvals(run, a + b) == Approvals(run, a) + Approvals(run, b)
    ensures Calls(run, a + b) == Calls(run, a) + Calls(run, b)
    decreases |b|
  {
    if b == [] {
      AppendNothing(run, a);
    } else {
      Append(run, a, b[..|b| - 1]);
      AppendOneMore(run, a, b[..|b| - 1], b[|b| - 1]);
      LastApart(a, b);
    }
  }

  lemma {:induction false} LastApart<T>(a: seq<T>, b: seq<T>)
    requires b != []
    ensures b[..|b| - 1] + [b[|b| - 1]] == b
    ensures a + b[..|b| - 1] + [b[|b| - 1]] == a + b
  {
  }

  lemma {:induction false} AppendIds(a: seq<ApprovalRow>, b: seq<ApprovalRow>)
    ensures ApprovalIds(a + b) == ApprovalIds(a) + ApprovalIds(b)
    decreases |b|
  {
    if b == [] {
      assert a + b == a;
    } else {
      var front, last := b[..|b| - 1], b[|b| - 1];
      AppendIds(a, front);
      ApprovalIdsExtend(a + front, [last]);
      ApprovalIdsExtend(front, [last]);
      LastApart(a, b);
    }
  }

  /** A wave's steps in the order their results are recorded. */
  function WaveOrder(run: Run, ready: seq<Step>): seq<Step> {
    Immediate(run, ready) + Deferred(run, ready)
  }

  lemma {:induction false} WaveOrderHasReady(run: Run, ready: seq<Step>)
    ensures forall s :: s in Immediate(run, ready) <==> s in ready && !run.fate(s).Dispatched?
    ensures forall s :: s in Deferred(run, ready) <==> s in ready && run.fate(s).Dispatched?
  {
    if ready != [] {
      var front, last := ready[..|ready| - 1], ready[|ready| - 1];
      WaveOrderHasReady(run, front);
      assert forall s :: s in ready <==> s in front || s == last;
    }
  }

  lemma {:induction false} PartsAreUnique(run: Run, ready: seq<Step>)
    requires UniqueIds(ready)
    ensures UniqueIds(Immediate(run, ready)) && UniqueIds(Deferred(run, ready))
  {
    if ready != [] {
      var front, last := ready[..|ready| - 1], ready[|ready| - 1];
      PartsAreUnique(run, front);
      WaveOrderHasReady(run, front);
      assert forall s :: s in front ==> s.id != last.id;
    }
  }

  lemma {:induction false} UniqueConcat(a: seq<Step>, b: seq<Step>)
    requires UniqueIds(a) && UniqueIds(b)
    requires forall s, t :: s in a && t in b ==> s.id != t.id
    ensures UniqueIds(a + b)
  {
  }

  lemma {:induction false} WaveOrderIsUnique(run: Run, ready: seq<Step>)
    requires UniqueIds(ready)
    ensures UniqueIds(WaveOrder(run, ready))
    ensures forall s :: s in WaveOrder(run, ready) <==> s in ready
  {
    WaveOrderHasReady(run, ready);
    forall s, t | s in Immediate(run, ready) && t in Deferred(run, ready) ensures s.id != t.id {
      var i :| 0 <= i < |ready| && ready[i] == s;
      var j :| 0 <= j < |ready| && ready[j] == t;
    }
    PartsAreUnique(run, ready);
    UniqueConcat(Immediate(run, ready), Deferred(run, ready));
  }

  lemma {:induction false} DeferredAskNoApproval(run: Run, steps: seq<Step>)
    requires forall s :: s in steps ==> run.fate(s).Dispatched?
    ensures Approvals(run, steps) == []
  {
    if steps != [] {
      DeferredAskNoApproval(run, steps[..|steps| - 1]);
      assert steps[|steps| - 1] in steps;
    }
  }

  lemma {:induction false} ImmediateMakeNoCall(run: Run, steps: seq<Step>)
    requires forall s :: s in steps ==> !run.fate(s).Dispatched?
    ensures Calls(run, steps) == []
  {
    if steps != [] {
      ImmediateMakeNoCall(run, steps[..|steps| - 1]);
      assert steps[|steps| - 1] in steps;
    }
  }

  lemma {:induction false} WaveEffects(run: Run, ready: seq<Step>)
    ensures Approvals(run, WaveOrder(run, ready)) == Approvals(run, Immediate(run, ready))
    ensures Calls(run, WaveOrder(run, ready)) == Calls(run, Deferred(run, ready))
  {
    WaveOrderHasReady(run, ready);
    Append(run, Immediate(run, ready), Deferred(run, ready));
    DeferredAskNoApproval(run, Deferred(run, ready));
    ImmediateMakeNoCall(run, Immediate(run, ready));
  }

  // ---------- the whole run ----------

  /** One iteration of the executor's loop, for a non-empty list of ready steps. */
  method RunWave(session: Session, ghost run: Run, executionId: nat, userId: string, env: Environment,
                 ghost steps: seq<Step>, ready: seq<Step>, results: Results, remaining: seq<Step>,
                 approvalIds: seq<string>)
    returns (results': Results, remaining': seq<Step>, approvalIds': seq<string>)
    requires RunsIn(run, executionId, userId, env)
    requires AllDecided(run, ready, results, env)
    requires remaining == Waves.Pending(steps, results.Keys)
    modifies session`approvals, session`calls, session`stepRows
    ensures results' == Recorded(run, results, WaveOrder(run, ready))
    ensures remaining' == Waves.Pending(steps, results'.Keys)
    ensures approvalIds' == approvalIds + ApprovalIds(Approvals(run, WaveOrder(run, ready)))
    ensures TablesOf(session) == Written(old(TablesOf(session)), run, WaveOrder(run, ready))
  {
    var wave, executable := Classify(session, run, executionId, userId, env, ready, results);
    var called: seq<WaveEntry> := [];
    if executable != [] {
      called := Dispatch(session, run, executionId, userId, env, executable, Deferred(run, ready));
    } else {
      assert Deferred(run, ready) == [] && session.calls == old(session.calls) + [];
    }
    EntriesConcat(run, wave, Immediate(run, ready), called, Deferred(run, ready));
    WaveEffects(run, ready);
    results', remaining', approvalIds' :=
      Record(session, run, executionId, steps, wave + called, WaveOrder(run, ready), results, remaining, approvalIds);
  }

  lemma {:induction false} EntriesConcat(run: Run, a: seq<WaveEntry>, doneA: seq<Step>, b: seq<WaveEntry>,
                                         doneB: seq<Step>)
    requires Entries(run, a, doneA) && Entries(run, b, doneB)
    ensures Entries(run, a + b, doneA + doneB)
  {
  }

  /** Dependencies come before dependents. */
  ghost predicate Respects(order: seq<Step>) {
    forall i {:trigger RespectsAt(order, i)} :: 0 <= i < |order| ==> RespectsAt(order, i)
  }

  ghost predicate RespectsAt(order: seq<Step>, i: nat) {
    i < |order| && DependenciesDone(order[i], IdSet(order[..i]))
  }

  /** `order` lists every step of the plan once, dependencies before dependents. */
  ghost predicate IsExecutionOrder(steps: seq<Step>, order: seq<Step>) {
    UniqueIds(order) && (forall s :: s in order <==> s in steps) && Respects(order)
  }

  lemma {:induction false} RespectsExtends(order: seq<Step>, more: seq<Step>)
    requires Respects(order) && forall s :: s in more ==> DependenciesDone(s, IdSet(order))
    ensures Respects(order + more)
  {
    var all := order + more;
    forall i | 0 <= i < |all| ensures RespectsAt(all, i) {
      if i < |order| {
        assert all[..i] == order[..i] && RespectsAt(order, i);
      } else {
        assert all[i] in more;
        assert all[..i] == order + more[..i - |order|];
        assert IdSet(order) <= IdSet(all[..i]);
      }
    }
  }

  ghost predicate ResultsSoFar(final: Results, results: Results, order: seq<Step>, level: map<string, nat>) {
    Within(results, final) && results.Keys == IdSet(order) && level.Keys == IdSet(order)
  }

  ghost predicate OrderSoFar(steps: seq<Step>, order: seq<Step>) {
    UniqueIds(order) && (forall s :: s in order ==> s in steps) && Respects(order)
  }

  /** What the loop maintains between waves, apart from the session. */
  ghost predicate WaveState(steps: seq<Step>, final: Results, results: Results, order: seq<Step>,
                            level: map<string, nat>, n: nat) {
    && ResultsSoFar(final, results, order, level)
    && OrderSoFar(steps, order)
    && Levelled(GraphOf(steps), level, n)
  }

  /**
   `run` and `final` belong together: `final` holds what every step comes to, and any part
   of `final` with a step's dependencies already decides the fate of that step.
   */
  ghost predicate Consistent(run: Run, steps: seq<Step>, final: Results, env: Environment) {
    && Foreseen(run, steps, final)
    && forall results: Results, s: Step {:trigger DecidedStep(run, s, results, env)} ::
         Within(results, final) && s in steps && DependenciesDone(s, results.Keys) ==>
           DecidedStep(run, s, results, env)
  }

  /** A consistent assignment of results belongs together with the run read off it. */
  lemma {:induction false} SolutionIsConsistent(steps: seq<Step>, executionId: nat, userId: string, env: Environment,
                                                final: Results)
    requires UniqueIds(steps) && AllProper(ById(steps)) && IsSolution(ById(steps), env, final)
    ensures var run := RunOf(executionId, userId, env, final);
            RunsIn(run, executionId, userId, env) && Consistent(run, steps, final, env)
  {
    var plan := ById(steps);
    var run := RunOf(executionId, userId, env, final);
    forall s | s in steps ensures s.id in final && final[s.id] == run.result(s) {
      var i :| 0 <= i < |steps| && steps[i] == s;
      assert plan[s.id] == s;
      assert Settled(plan, env, final, s.id);
    }
    forall results: Results, s: Step | Within(results, final) && s in steps && DependenciesDone(s, results.Keys)
      ensures DecidedStep(run, s, results, env)
    {
      ReadyIsDecided(steps, env, final, results, s);
    }
  }

  lemma {:induction false} ReadyIsDecided(steps: seq<Step>, env: Environment, final: Results, results: Results,
                                          step: Step)
    requires UniqueIds(steps) && AllProper(ById(steps)) && IsSolution(ById(steps), env, final)
    requires Within(results, final) && step in steps && DependenciesDone(step, results.Keys)
    ensures DependenciesHaveResults(step, results) && DependenciesHaveResults(step, final)
    ensures Dispose(step, results, env) == Dispose(step, final, env)
  {
    var plan := ById(steps);
    var i :| 0 <= i < |steps| && steps[i] == step;
    assert plan[step.id] == step;
    assert Proper(plan, step.id);
    KeysAreIdentifiers(plan, results);
    KeysAreIdentifiers(plan, final);
    DisposeReadsDependencies(step, results, final, env);
  }

  /** The ids a wave takes are those the graph makes ready. */
  lemma {:induction false} ReadyIsTaken(steps: seq<Step>, level: map<string, nat>, ready: seq<Step>)
    requires UniqueIds(steps)
    requires forall s :: s in ready <==> s in steps && s.id !in level && DependenciesDone(s, level.Keys)
    ensures TakesReady(GraphOf(steps), level, IdSet(ready))
  {
    var g := GraphOf(steps);
    forall id | id in IdSet(ready)
      ensures id in g && id !in level && forall d :: d in g[id] ==> d in level
    {
      var s :| s in ready && s.id == id;
      EdgesAreDependencies(steps, s);
    }
    forall id | id in g && id !in level && forall d :: d in g[id] ==> d in level
      ensures id in IdSet(ready)
    {
      var s := StepOfEdge(steps, id);
      assert s in ready;
    }
  }

  ghost predicate IsReady(steps: seq<Step>, order: seq<Step>, ready: seq<Step>) {
    && UniqueIds(ready)
    && forall s :: s in ready <==> s in steps && s.id !in IdSet(order) && DependenciesDone(s, IdSet(order))
  }

  lemma {:induction false} WaveExtendsOrder(steps: seq<Step>, run: Run, order: seq<Step>, ready: seq<Step>)
    requires OrderSoFar(steps, order) && IsReady(steps, order, ready)
    ensures OrderSoFar(steps, order + WaveOrder(run, ready))
  {
    var done := WaveOrder(run, ready);
    WaveOrderIsUnique(run, ready);
    forall s, t | s in order && t in done ensures s.id != t.id {
      assert s.id in IdSet(order);
    }
    UniqueConcat(order, done);
    RespectsExtends(order, done);
  }

  lemma {:induction false} WaveExtendsIds(run: Run, order: seq<Step>, ready: seq<Step>)
    requires UniqueIds(ready)
    ensures IdSet(WaveOrder(run, ready)) == IdSet(ready)
    ensures IdSet(order + WaveOrder(run, ready)) == IdSet(order) + IdSet(ready)
  {
    WaveOrderIsUnique(run, ready);
    var done := WaveOrder(run, ready);
    assert forall s :: s in order + done <==> s in order || s in done;
  }

  lemma {:induction false} WaveExtendsResults(steps: seq<Step>, run: Run, final: Results, results: Results,
                                              order: seq<Step>, level: map<string, nat>, n: nat, ready: seq<Step>)
    requires Foreseen(run, steps, final) && ResultsSoFar(final, results, order, level) && IsReady(steps, order, ready)
    ensures ResultsSoFar(final, Recorded(run, results, WaveOrder(run, ready)), order + WaveOrder(run, ready),
                         WithWave(level, IdSet(ready), n))
  {
    WaveOrderIsUnique(run, ready);
    RecordedIsWithin(run, results, WaveOrder(run, ready), final);
    RecordedKeys(run, results, WaveOrder(run, ready));
    WaveExtendsIds(run, order, ready);
  }

  lemma {:induction false} ReadyOf(steps: seq<Step>, order: seq<Step>)
    requires UniqueIds(steps)
    ensures IsReady(steps, order, ReadySteps(Waves.Pending(steps, IdSet(order)), IdSet(order)))
  {
    PendingIsUnique(steps, IdSet(order));
    ReadyIsUnique(Waves.Pending(steps, IdSet(order)), IdSet(order));
  }

  lemma {:induction false} ReadyIsDecidedNow(steps: seq<Step>, run: Run, env: Environment, final: Results,
                                             results: Results, order: seq<Step>, ready: seq<Step>)
    requires Consistent(run, steps, final, env) && IsReady(steps, order, ready)
    requires Within(results, final) && results.Keys == IdSet(order)
    ensures AllDecided(run, ready, results, env)
  {
  }

  lemma {:induction false} NextWaveState(steps: seq<Step>, run: Run, env: Environment, final: Results,
                                         results: Results, order: seq<Step>, level: map<string, nat>, n: nat,
                                         ready: seq<Step>)
    requires UniqueIds(steps) && Consistent(run, steps, final, env)
    requires WaveState(steps, final, results, order, level, n)
    requires ready == ReadySteps(Waves.Pending(steps, results.Keys), results.Keys)
    ensures AllDecided(run, ready, results, env)
    ensures WaveState(steps, final, Recorded(run, results, WaveOrder(run, ready)), order + WaveOrder(run, ready),
                      WithWave(level, IdSet(ready), n + 1), n + 1)
  {
    ReadyOf(steps, order);
    ReadyIsDecidedNow(steps, run, env, final, results, order, ready);
    WaveExtendsResults(steps, run, final, results, order, level, n + 1, ready);
    WaveExtendsOrder(steps, run, order, ready);
    ReadyIsTaken(steps, level, ready);
    NextWaveIsLevelled(GraphOf(steps), level, n, IdSet(ready));
  }

  lemma {:induction false} WithinWithSameKeys(results: Results, final: Results)
    requires Within(results, final) && results.Keys == final.Keys
    ensures results == final
  {
  }

  lemma {:induction false} FinishedRunIsComplete(steps: seq<Step>, final: Results, results: Results, order: seq<Step>,
                                                 level: map<string, nat>)
    requires UniqueIds(steps) && final.Keys == IdSet(steps)
    requires ResultsSoFar(final, results, order, level) && OrderSoFar(steps, order)
    requires Waves.Pending(steps, results.Keys) == []
    ensures results == final && IsExecutionOrder(steps, order) && level.Keys == IdSet(steps)
  {
    forall s | s in steps ensures s.id in results && s in order {
      assert s !in Waves.Pending(steps, results.Keys);
      var t :| t in order && t.id == s.id;
      SameIdSameStep(steps, s, t);
    }
    assert IdSet(order) == IdSet(steps);
    WithinWithSameKeys(results, final);
  }

  lemma {:induction false} SameIdSameStep(steps: seq<Step>, s: Step, t: Step)
    requires UniqueIds(steps) && s in steps && t in steps && s.id == t.id
    ensures s == t
  {
    var i :| 0 <= i < |steps| && steps[i] == s;
    var j :| 0 <= j < |steps| && steps[j] == t;
  }

  lemma {:induction false} IdSetIsGraph(steps: seq<Step>)
    ensures IdSet(steps) == GraphOf(steps).Keys && ById(steps).Keys == GraphOf(steps).Keys
  {
    forall id | id in GraphOf(steps) ensures id in IdSet(steps) {
      assert ById(steps)[id] in steps;
    }
  }

  lemma {:induction false} DependenciesRunBefore(steps: seq<Step>, order: seq<Step>, i: nat, d: string)
    requires UniqueIds(steps) && IsExecutionOrder(steps, order) && i < |order|
    requires d in order[i].dependsOn
    ensures d in Ids(order)[..i]
  {
    assert RespectsAt(order, i);
    assert d in IdSet(order[..i]);
    var s :| s in order[..i] && s.id == d;
    var j :| 0 <= j < i && order[j] == s;
    assert Ids(order)[..i][j] == d;
  }

  lemma {:induction false} OrderListsGraph(steps: seq<Step>, order: seq<Step>, id: string)
    requires UniqueIds(steps) && IsExecutionOrder(steps, order) && id in GraphOf(steps)
    ensures id in Ids(order)
  {
    var s := StepOfEdge(steps, id);
    var j :| 0 <= j < |order| && order[j] == s;
    assert Ids(order)[j] == id;
  }

  /** An execution order topologically sorts the graph, so only an acyclic plan has one. */
  lemma {:induction false} ExecutedPlanIsAcyclic(steps: seq<Step>, order: seq<Step>)
    requires UniqueIds(steps) && IsExecutionOrder(steps, order)
    ensures Acyclic(GraphOf(steps))
  {
    var g, ids := GraphOf(steps), Ids(order);
    forall i | 0 <= i < |ids|
      ensures ids[i] in g && forall d :: d in g[ids[i]] ==> d in ids[..i]
    {
      EdgesAreDependencies(steps, order[i]);
      forall d | d in order[i].dependsOn ensures d in ids[..i] {
        DependenciesRunBefore(steps, order, i, d);
      }
    }
    forall id | id in g ensures id in ids {
      OrderListsGraph(steps, order, id);
    }
    assert Distinct(ids);
    TopologicalIsAcyclic(g, ids);
  }

  /** The tables of a session and its call log, as one value. */
  datatype Tables = Tables(stepRows: seq<StepRow>, approvals: seq<ApprovalRow>, calls: seq<Call>)

  ghost function TablesOf(session: Session): Tables
    reads session
  {
    Tables(session.stepRows, session.approvals, session.calls)
  }

  /** What running these steps adds to the tables. */
  function Written(before: Tables, run: Run, order: seq<Step>): Tables {
    Tables(before.stepRows + Rows(run, order), before.approvals + Approvals(run, order),
           before.calls + Calls(run, order))
  }

  lemma {:induction false} WrittenTwice(before: Tables, run: Run, order: seq<Step>, done: seq<Step>)
    ensures Written(Written(before, run, order), run, done) == Written(before, run, order + done)
    ensures ApprovalIds(Approvals(run, order + done)) ==
            ApprovalIds(Approvals(run, order)) + ApprovalIds(Approvals(run, done))
  {
    ExtendRun(run, order, done);
    Assoc(before.stepRows, Rows(run, order), Rows(run, done));
    Assoc(before.approvals, Approvals(run, order), Approvals(run, done));
    Assoc(before.calls, Calls(run, order), Calls(run, done));
  }

  /** What a run has reached between waves: every id done so far, in what order and in which wave. */
  ghost predicate Progress(steps: seq<Step>, run: Run, final: Results, results: Results, remaining: seq<Step>,
                           approvalIds: seq<string>, order: seq<Step>, wave: map<string, nat>, n: nat) {
    && WaveState(steps, final, results, order, wave, n)
    && remaining == Waves.Pending(steps, results.Keys)
    && approvalIds == ApprovalIds(Approvals(run, order))
  }

  /** One wave takes the run on. */
  method Advance(session: Session, ghost run: Run, executionId: nat, userId: string, env: Environment,
                 ghost before: Tables,
                 ghost steps: seq<Step>, ghost final: Results, ready: seq<Step>, results: Results, remaining: seq<Step>,
                 approvalIds: seq<string>, ghost order: seq<Step>, ghost wave: map<string, nat>, ghost n: nat)
    returns (results': Results, remaining': seq<Step>, approvalIds': seq<string>)
    requires UniqueIds(steps) && RunsIn(run, executionId, userId, env) && Consistent(run, steps, final, env)
    requires Progress(steps, run, final, results, remaining, approvalIds, order, wave, n)
    requires TablesOf(session) == Written(before, run, order)
    requires ready == ReadySteps(remaining, results.Keys) && ready != []
    modifies session`stepRows, session`approvals, session`calls
    ensures Progress(steps, run, final, results', remaining', approvalIds', order + WaveOrder(run, ready),
                     WithWave(wave, IdSet(ready), n + 1), n + 1)
    ensures TablesOf(session) == Written(before, run, order + WaveOrder(run, ready))
    ensures |remaining'| < |remaining|
  {
    NextWaveState(steps, run, env, final, results, order, wave, n, ready);
    WrittenTwice(before, run, order, WaveOrder(run, ready));
    RemainingShrinks(steps, results.Keys, run, results, ready);
    results', remaining', approvalIds' :=
      RunWave(session, run, executionId, userId, env, steps, ready, results, remaining, approvalIds);
  }

  /** The waves of a run whose final results are foreseen. */
  method RunWaves(session: Session, ghost run: Run, executionId: nat, userId: string, env: Environment,
                  steps: seq<Step>, ghost final: Results)
    returns (stuck: bool, results: Results, approvalIds: seq<string>,
             ghost order: seq<Step>, ghost wave: map<string, nat>, ghost n: nat)
    requires UniqueIds(steps) && Closed(GraphOf(steps))
    requires RunsIn(run, executionId, userId, env) && Consistent(run, steps, final, env)
    modifies session`stepRows, session`approvals, session`calls
    ensures stuck ==> !Acyclic(GraphOf(steps))
    ensures !stuck ==> Progress(steps, run, final, results, [], approvalIds, order, wave, n)
    ensures !stuck ==> TablesOf(session) == Written(old(TablesOf(session)), run, order)
  {
    var remaining := steps;
    results, approvalIds, order, wave, n := map[], [], [], map[], 0;
    NothingDone(steps, final);
    assert results.Keys == {};
    while remaining != []
      invariant Progress(steps, run, final, results, remaining, approvalIds, order, wave, n)
      invariant TablesOf(session) == Written(old(TablesOf(session)), run, order)
      decreases |remaining|
    {
      var ready := ReadySteps(remaining, results.Keys);
      if ready == [] {
        NothingReady(steps, results.Keys);
        stuck := true;
        return;
      }
      results, remaining, approvalIds :=
        Advance(session, run, executionId, userId, env, old(TablesOf(session)), steps, final, ready,
                results, remaining, approvalIds, order, wave, n);
      order, wave, n := order + WaveOrder(run, ready), WithWave(wave, IdSet(ready), n + 1), n + 1;
    }
    stuck := false;
  }

  lemma {:induction false} NothingReady(steps: seq<Step>, done: set<string>)
    requires UniqueIds(steps) && Closed(GraphOf(steps))
    requires Waves.Pending(steps, done) != [] && ReadySteps(Waves.Pending(steps, done), done) == []
    ensures !Acyclic(GraphOf(steps))
  {
    if Acyclic(GraphOf(steps)) {
      var step := SomeStepIsReady(steps, done);
    }
  }

  /** Every step runs in the wave given by its longest dependency chain. */
  ghost predicate WavesAreLongestChains(steps: seq<Step>, wave: map<string, nat>) {
    forall id :: id in GraphOf(steps) ==> id in wave && LongestChain(GraphOf(steps), id, wave[id])
  }

  /** A finished run is complete, and its waves are the longest dependency chains. */
  lemma {:induction false} FinishedWaves(steps: seq<Step>, run: Run, final: Results, results: Results,
                                         approvalIds: seq<string>, order: seq<Step>, wave: map<string, nat>, n: nat)
    requires UniqueIds(steps) && Closed(GraphOf(steps)) && final.Keys == IdSet(steps)
    requires Progress(steps, run, final, results, [], approvalIds, order, wave, n)
    ensures results == final && IsExecutionOrder(steps, order) && Acyclic(GraphOf(steps))
    ensures WavesAreLongestChains(steps, wave)
  {
    FinishedRunIsComplete(steps, final, results, order, wave);
    IdSetIsGraph(steps);
    CompleteLevelsAreLongestChains(GraphOf(steps), wave, n);
    ExecutedPlanIsAcyclic(steps, order);
  }

  lemma {:induction false} ProperPlanIsClosed(steps: seq<Step>)
    requires AllProper(ById(steps))
    ensures Closed(GraphOf(steps))
  {
    DependenciesAreClosed(ById(steps));
  }

  /**
   The wave loop on any closed plan, cyclic or not. Its error exit, no step being runnable, is
   taken exactly when the dependency graph has a cycle; otherwise the results are consistent.
   */
  method RunLoop(session: Session, executionId: nat, userId: string, env: Environment, steps: seq<Step>)
    returns (stuck: bool, results: Results, approvalIds: seq<string>,
             ghost order: seq<Step>, ghost wave: map<string, nat>)
    requires UniqueIds(steps) && AllProper(ById(steps))
    modifies session`stepRows, session`approvals, session`calls
    ensures stuck <==> !Acyclic(GraphOf(steps))
    ensures !stuck ==>
      && IsSolution(ById(steps), env, results) && IsExecutionOrder(steps, order)
      && TablesOf(session) == Written(old(TablesOf(session)), RunOf(executionId, userId, env, results), order)
      && approvalIds == ApprovalIds(Approvals(RunOf(executionId, userId, env, results), order))
      && WavesAreLongestChains(steps, wave)
  {
    ghost var final := EveryPlanHasSolution(ById(steps), env);
    ghost var run := RunOf(executionId, userId, env, final);
    ghost var n;
    SolutionIsConsistent(steps, executionId, userId, env, final);
    ProperPlanIsClosed(steps);
    IdSetIsGraph(steps);
    stuck, results, approvalIds, order, wave, n := RunWaves(session, run, executionId, userId, env, steps, final);
    if !stuck {
      FinishedWaves(steps, run, final, results, approvalIds, order, wave, n);
    }
  }

  datatype Outcome =
    | PlanRejected(verdict: Verdict)
    | Executed(executionId: nat, results: seq<StepResult>, pendingApprovalIds: seq<string>)

  /** Everything that a whole run returns and writes, given the evaluation of its plan. */
  ghost predicate RanToEnd(steps: seq<Step>, env: Environment, executionId: nat, userId: string, before: Tables,
                           after: Tables, ordered: seq<StepResult>, approvalIds: seq<string>,
                           order: seq<Step>, wave: map<string, nat>)
    requires WellFounded(ById(steps))
  {
    var final := ResultsOf(ById(steps), env);
    && (forall s :: s in steps ==> s.id in final)
    && ordered == InPlanOrder(steps, final)
    && IsExecutionOrder(steps, order)
    && after == Written(before, RunOf(executionId, userId, env, final), order)
    && approvalIds == ApprovalIds(Approvals(RunOf(executionId, userId, env, final), order))
    && WavesAreLongestChains(steps, wave)
  }

  /** The wave loop on a plan it gets through, and its results in plan order. */
  method RunToEnd(session: Session, executionId: nat, userId: string, env: Environment, steps: seq<Step>)
    returns (ordered: seq<StepResult>, approvalIds: seq<string>, ghost order: seq<Step>, ghost wave: map<string, nat>)
    requires GraphInvariant(steps) && WellFounded(ById(steps))
    modifies session`stepRows, session`approvals, session`calls
    ensures StatusSet(ordered) == Statuses(ResultsOf(ById(steps), env))
    ensures RanToEnd(steps, env, executionId, userId, old(TablesOf(session)), TablesOf(session),
                     ordered, approvalIds, order, wave)
  {
    ghost var final := ResultsOf(ById(steps), env);
    var stuck, results;
    stuck, results, approvalIds, order, wave := RunLoop(session, executionId, userId, env, steps);
    assert !stuck;
    SolutionIsUnique(ById(steps), env, results, final);
    StepsHaveIds(steps);
    ordered := InPlanOrder(steps, results);
    StatusesInPlanOrder(steps, results);
  }

  // ---------- what is reported of each step ----------

  /** The returned data of each step, by its id. */
  ghost predicate IsDataOf(data: map<string, Value>, steps: seq<Step>, results: seq<StepResult>)
    requires |results| == |steps|
  {
    && (forall i :: 0 <= i < |steps| ==> steps[i].id in data && data[steps[i].id] == results[i].data)
    && forall id :: id in data ==> exists i :: 0 <= i < |steps| && steps[i].id == id
  }

  /** Some dependency of the step has no result to offer. */
  ghost predicate IsHeldUp(steps: seq<Step>, results: seq<StepResult>, s: Step)
    requires |results| == |steps|
  {
    exists j :: 0 <= j < |steps| && steps[j].id in s.dependsOn
                && (results[j].status == Failed || results[j].status == Skipped
                     || results[j].status == AwaitingApproval)
  }

  /** What the agent answered, or that its call raised. */
  ghost predicate Carries(result: StepResult, reply: AgentReply) {
    match reply
    case Replied(status, data, error) => result.status == status && result.data == data && result.error == error
    case Raised => result.status == Failed && result.data == Obj([]) && result.error == Some(OperationFailed)
  }

  /** The result says that the step waits for an approval, and for which. */
  ghost predicate Awaits(result: StepResult, approvalId: string) {
    && result.status == AwaitingApproval && result.error == None
    && result.data == Obj([Field("approval_id", Str(approvalId))])
  }

  /** The result says which of the step's references failed first, and why. */
  ghost predicate Explained(env: Environment, s: Step, data: map<string, Value>, result: StepResult) {
    && result.status == Failed && result.data == Obj([])
    && result.error.Some? && result.error.value.ReferenceError?
    && FirstFails(env.digits, s.arguments, data, result.error.value.cause)
  }

  /**
   What becomes of a step, given the data of all. A step that is held up is skipped. Otherwise its
   references are replaced by what they refer to; if that fails the error says why. With its
   arguments so replaced, it waits for an approval if its operation needs one, and else carries the
   agent's reply. `arguments` are those that are stored.
   */
  ghost predicate IsReport(env: Environment, data: map<string, Value>, heldUp: bool, s: Step, result: StepResult,
                           arguments: Value)
  {
    if heldUp then
      && result.status == Skipped && result.data == Obj([]) && result.error == Some(DependencyUnavailable)
      && arguments == s.arguments
    else if exists a :: Substitutes(env.digits, s.arguments, data, a) then
      && Substitutes(env.digits, s.arguments, data, arguments)
      && if env.registry.requiresApproval(s.service, s.operation) then Awaits(result, env.approvalId(s.id))
         else Carries(result, env.registry.execute(s.service, s.operation, arguments))
    else
      Explained(env, s, data, result) && arguments == s.arguments
  }

  /** A row that stores the result of its step, and both as they should be. */
  ghost predicate IsReported(env: Environment, executionId: nat, data: map<string, Value>, heldUp: bool, s: Step,
                             result: StepResult, row: StepRow)
  {
    && result.stepId == s.id
    && row ==
         StepRow(executionId, s.id, s.service, s.operation, result.status, row.arguments, result.data, result.error)
    && IsReport(env, data, heldUp, s, result, row.arguments)
  }

  ghost predicate HasReport(env: Environment, executionId: nat, data: map<string, Value>, steps: seq<Step>,
                            results: seq<StepResult>, i: nat, rows: seq<StepRow>)
    requires |results| == |steps| && i < |steps|
  {
    exists row :: row in rows
      && IsReported(env, executionId, data, IsHeldUp(steps, results, steps[i]), steps[i], results[i], row)
  }

  /** The new rows are one for each step, as reported. */
  ghost predicate AllReported(env: Environment, executionId: nat, steps: seq<Step>, results: seq<StepResult>,
                              before: seq<StepRow>, after: seq<StepRow>)
    requires |results| == |steps|
  {
    && before <= after && |after| == |before| + |steps|
    && exists data :: IsDataOf(data, steps, results)
         && forall i {:trigger HasReport(env, executionId, data, steps, results, i, after[|before|..])} ::
              0 <= i < |steps| ==> HasReport(env, executionId, data, steps, results, i, after[|before|..])
  }

  lemma {:induction false} DataIsById(steps: seq<Step>, final: Results)
    requires UniqueIds(steps) && final.Keys == ById(steps).Keys && forall s :: s in steps ==> s.id in final
    ensures IsDataOf(DataOf(final), steps, InPlanOrder(steps, final))
  {
    forall id | id in final ensures exists i :: 0 <= i < |steps| && steps[i].id == id {
      var i :| 0 <= i < |steps| && steps[i] == ById(steps)[id];
    }
  }

  lemma {:induction false} UnavailableMeansHeldUp(steps: seq<Step>, final: Results, s: Step, d: string)
    requires UniqueIds(steps) && final.Keys == ById(steps).Keys && (forall t :: t in steps ==> t.id in final)
    requires d in s.dependsOn && d in final && Unavailable(final[d].status)
    ensures IsHeldUp(steps, InPlanOrder(steps, final), s)
  {
    var j :| 0 <= j < |steps| && steps[j] == ById(steps)[d];
    assert InPlanOrder(steps, final)[j] == final[d];
  }

  lemma {:induction false} HeldUpMeansUnavailable(steps: seq<Step>, final: Results, s: Step)
    requires UniqueIds(steps) && final.Keys == ById(steps).Keys && (forall t :: t in steps ==> t.id in final)
    requires DependenciesHaveResults(s, final)
    ensures IsHeldUp(steps, InPlanOrder(steps, final), s) <==> AnyUnavailable(s.dependsOn, final)
  {
    var results := InPlanOrder(steps, final);
    AnyUnavailableMeans(s.dependsOn, final);
    if d :| d in s.dependsOn && Unavailable(final[d].status) {
      UnavailableMeansHeldUp(steps, final, s, d);
    }
    if j :| 0 <= j < |steps| && steps[j].id in s.dependsOn
            && (results[j].status == Failed || results[j].status == Skipped || results[j].status == AwaitingApproval) {
      assert Unavailable(final[steps[j].id].status);
    }
  }

  /** What the evaluator makes of a step is that. */
  lemma {:induction false} OutcomeIsReport(env: Environment, final: Results, s: Step)
    requires DependenciesHaveResults(s, final)
    ensures var d := Dispose(s, final, env);
            IsReport(env, DataOf(final), AnyUnavailable(s.dependsOn, final), s, ResultOf(s, d, env),
              FinalArguments(s, d))
  {
    var data, resolved := DataOf(final), Resolve(env.digits, s.arguments, DataOf(final));
    if resolved.Ok? {
      ResolutionSubstitutes(env.digits, s.arguments, data, resolved.value);
    } else {
      forall a ensures !Substitutes(env.digits, s.arguments, data, a) {
        ResolutionSubstitutes(env.digits, s.arguments, data, a);
      }
      ResolutionFailsWith(env.digits, s.arguments, data);
    }
  }

  lemma {:induction false} StepIsSettled(steps: seq<Step>, env: Environment, final: Results, i: nat)
    requires UniqueIds(steps) && IsSolution(ById(steps), env, final) && i < |steps|
    ensures steps[i].id in final && DependenciesHaveResults(steps[i], final)
    ensures final[steps[i].id] == ResultOf(steps[i], Dispose(steps[i], final, env), env)
  {
    assert ById(steps)[steps[i].id] == steps[i];
    assert Settled(ById(steps), env, final, steps[i].id);
  }

  lemma {:induction false} ResultNamesStep(s: Step, d: Disposition, env: Environment)
    ensures ResultOf(s, d, env).stepId == s.id
  {
  }

  /** The row that a run writes for a step is as reported. */
  lemma {:induction false} RowIsReported(steps: seq<Step>, executionId: nat, userId: string, env: Environment, i: nat)
    requires UniqueIds(steps) && WellFounded(ById(steps)) && i < |steps|
    requires forall s :: s in steps ==> s.id in ResultsOf(ById(steps), env)
    ensures var final := ResultsOf(ById(steps), env);
            var results := InPlanOrder(steps, final);
            IsReported(env, executionId, DataOf(final), IsHeldUp(steps, results, steps[i]), steps[i], results[i],
                       RowOf(RunOf(executionId, userId, env, final), steps[i]))
  {
    var final, s := ResultsOf(ById(steps), env), steps[i];
    StepIsSettled(steps, env, final, i);
    ResultNamesStep(s, Dispose(s, final, env), env);
    HeldUpMeansUnavailable(steps, final, s);
    OutcomeIsReport(env, final, s);
  }

  lemma {:induction false} OrderIsAsLong(steps: seq<Step>, order: seq<Step>)
    requires UniqueIds(steps) && IsExecutionOrder(steps, order)
    ensures |order| == |steps|
  {
    UniqueIffSetIsAsLarge(steps);
    UniqueIffSetIsAsLarge(order);
    assert (set id | id in Ids(order)) == (set id | id in Ids(steps)) by {
      forall id ensures id in Ids(order) <==> id in Ids(steps) {
        IdsAreOfSteps(order, id);
        IdsAreOfSteps(steps, id);
      }
    }
  }

  lemma {:induction false} IdsAreOfSteps(steps: seq<Step>, id: string)
    ensures id in Ids(steps) <==> exists s :: s in steps && s.id == id
  {
    if id in Ids(steps) {
      var i :| 0 <= i < |steps| && Ids(steps)[i] == id;
      assert steps[i] in steps;
    }
    if s :| s in steps && s.id == id {
      var i :| 0 <= i < |steps| && steps[i] == s;
      assert Ids(steps)[i] == id;
    }
  }

  lemma {:induction false} RowsAreAsMany(run: Run, order: seq<Step>)
    ensures |Rows(run, order)| == |order|
  {
    if order != [] {
      RowsAreAsMany(run, order[..|order| - 1]);
    }
  }

  /** Whoever runs a plan to the end reports every step. */
  lemma {:induction false} RunIsReported(steps: seq<Step>, env: Environment, executionId: nat, userId: string,
                                         before: Tables,
                                         after: Tables, ordered: seq<StepResult>, approvalIds: seq<string>,
                                         order: seq<Step>, wave: map<string, nat>)
    requires GraphInvariant(steps) && WellFounded(ById(steps))
    requires RanToEnd(steps, env, executionId, userId, before, after, ordered, approvalIds, order, wave)
    ensures |ordered| == |steps| && AllReported(env, executionId, steps, ordered, before.stepRows, after.stepRows)
  {
    var final := ResultsOf(ById(steps), env);
    var run := RunOf(executionId, userId, env, final);
    RowsAreAsMany(run, order);
    OrderIsAsLong(steps, order);
    assert after.stepRows[|before.stepRows|..] == Rows(run, order);
    DataIsById(steps, final);
    forall i | 0 <= i < |steps|
      ensures HasReport(env, executionId, DataOf(final), steps, ordered, i, Rows(run, order))
    {
      assert steps[i] in order;
      RowsAreOfSteps(run, order, RowOf(run, steps[i]));
      RowIsReported(steps, executionId, userId, env, i);
    }
  }

  // ---------- the operation ----------

  lemma {:induction false} SetLast<T>(s: seq<T>, x: T, y: T)
    ensures |s + [x]| == |s| + 1 && (s + [x])[|s| := y] == s + [y]
  {
  }

  /** The execution row, the run, and the final status. */
  method RunPlan(session: Session, userId: string, env: Environment, steps: seq<Step>)
    returns (executionId: nat, ordered: seq<StepResult>, approvalIds: seq<string>,
             ghost order: seq<Step>, ghost wave: map<string, nat>)
    requires GraphInvariant(steps) && WellFounded(ById(steps))
    modifies session
    ensures executionId == |old(session.executions)|
    ensures session.executions == old(session.executions) + [FoldStatus(Statuses(ResultsOf(ById(steps), env)))]
    ensures RanToEnd(steps, env, executionId, userId, old(TablesOf(session)), TablesOf(session),
                     ordered, approvalIds, order, wave)
  {
    executionId := |session.executions|;
    session.executions := session.executions + [Running];
    ordered, approvalIds, order, wave := RunToEnd(session, executionId, userId, env, steps);
    var status := FoldStatus(StatusSet(ordered));
    SetLast(old(session.executions), Running, status);
    ghost var tables := TablesOf(session);
    session.executions := session.executions[executionId := status];
    assert TablesOf(session) == tables;
  }

  /**
   Runs a plan. A valid plan that the registry accepts is always executed to the end; its
   results are the plan's evaluation in plan order, every step leaves one row, every gated
   step one approval, every dispatched step one registry call, and `wave` is the length of
   the longest dependency chain from each step.
   */
  method Execute(session: Session, userId: string, env: Environment, steps: seq<Step>)
    returns (outcome: Outcome, ghost order: seq<Step>, ghost wave: map<string, nat>)
    requires ValidPlan(steps)
    modifies session
    ensures outcome.PlanRejected? <==> env.registry.validatePlan(steps) != Valid
    ensures outcome.PlanRejected? ==> unchanged(session)
    ensures WellFounded(ById(steps))
    ensures outcome.Executed? ==> outcome.executionId == |old(session.executions)|
    ensures outcome.Executed? ==>
              session.executions == old(session.executions) + [FoldStatus(Statuses(ResultsOf(ById(steps), env)))]
    ensures outcome.Executed? ==>
              RanToEnd(steps, env, outcome.executionId, userId, old(TablesOf(session)), TablesOf(session),
                       outcome.results, outcome.pendingApprovalIds, order, wave)
    ensures outcome.Executed? ==>
              && |outcome.results| == |steps|
              && AllReported(env, outcome.executionId, steps, outcome.results, old(session.stepRows), session.stepRows)
  {
    ValidPlanIsWellFounded(steps);
    order, wave := [], map[];
    var verdict := env.registry.validatePlan(steps);
    if verdict != Valid {
      return PlanRejected(verdict), order, wave;
    }
    var executionId, ordered, approvalIds;
    executionId, ordered, approvalIds, order, wave := RunPlan(session, userId, env, steps);
    RunIsReported(steps, env, executionId, userId, old(TablesOf(session)), TablesOf(session),
                  ordered, approvalIds, order, wave);
    return Executed(executionId, ordered, approvalIds), order, wave;
  }

  /** `[results[step.step_id] for step in plan.steps]` */
  function InPlanOrder(steps: seq<Step>, results: Results): (r: seq<StepResult>)
    requires forall s :: s in steps ==> s.id in results
    ensures |r| == |steps| && forall i :: 0 <= i < |steps| ==> r[i] == results[steps[i].id]
  {
    seq(|steps|, i requires 0 <= i < |steps| => results[steps[i].id])
  }

  lemma {:induction false} StepsHaveIds(steps: seq<Step>)
    ensures forall s :: s in steps ==> s.id in ById(steps)
  {
  }

  lemma {:induction false} NothingDone(steps: seq<Step>, final: Results)
    ensures WaveState(steps, final, map[], [], map[], 0)
    ensures steps == Waves.Pending(steps, {})
  {
    PendingAll(steps);
  }

  lemma {:induction false} PendingAll(steps: seq<Step>)
    ensures Waves.Pending(steps, {}) == steps
  {
    if steps != [] {
      PendingAll(steps[1..]);
    }
  }

  lemma {:induction false} ExtendRun(run: Run, order: seq<Step>, done: seq<Step>)
    ensures Rows(run, order + done) == Rows(run, order) + Rows(run, done)
    ensures Approvals(run, order + done) == Approvals(run, order) + Approvals(run, done)
    ensures Calls(run, order + done) == Calls(run, order) + Calls(run, done)
    ensures ApprovalIds(Approvals(run, order + done)) ==
            ApprovalIds(Approvals(run, order)) + ApprovalIds(Approvals(run, done))
  {
    Append(run, order, done);
    AppendIds(Approvals(run, order), Approvals(run, done));
  }

  lemma {:induction false} PendingShrinks(steps: seq<Step>, done: set<string>, more: set<string>)
    requires done <= more
    ensures |Waves.Pending(steps, more)| <= |Waves.Pending(steps, done)|
    ensures (exists s :: s in steps && s.id !in done && s.id in more) ==>
            |Waves.Pending(steps, more)| < |Waves.Pending(steps, done)|
  {
    if steps != [] {
      PendingShrinks(steps[1..], done, more);
      assert forall s :: s in steps <==> s == steps[0] || s in steps[1..];
    }
  }

  lemma {:induction false} RemainingShrinks(steps: seq<Step>, done: set<string>, run: Run, results: Results,
                                            ready: seq<Step>)
    requires done == results.Keys && ready != []
    requires forall s :: s in ready ==> s in steps && s.id !in done
    ensures |Waves.Pending(steps, Recorded(run, results, WaveOrder(run, ready)).Keys)| < |Waves.Pending(steps, done)|
  {
    WaveOrderHasReady(run, ready);
    RecordedKeys(run, results, WaveOrder(run, ready));
    assert ready[0] in WaveOrder(run, ready);
    assert ready[0].id in IdSet(WaveOrder(run, ready));
    PendingShrinks(steps, done, done + IdSet(WaveOrder(run, ready)));
  }

  function StatusSet(results: seq<StepResult>): set<Status> {
    set r | r in results :: r.status
  }

  lemma {:induction false} StatusIsListed(steps: seq<Step>, results: Results, id: string)
    requires (forall s :: s in steps ==> s.id in results) && id in ById(steps) && id in results
    ensures results[id].status in StatusSet(InPlanOrder(steps, results))
  {
    var i :| 0 <= i < |steps| && steps[i] == ById(steps)[id];
    assert InPlanOrder(steps, results)[i] in InPlanOrder(steps, results);
  }

  lemma {:induction false} ListedStatusIsKept(steps: seq<Step>, results: Results, r: StepResult)
    requires (forall s :: s in steps ==> s.id in results) && r in InPlanOrder(steps, results)
    ensures r.status in Statuses(results)
  {
    var i :| 0 <= i < |steps| && InPlanOrder(steps, results)[i] == r;
    assert results[steps[i].id].status in Statuses(results);
  }

  /** The fold over the returned list sees the statuses of the result map. */
  lemma {:induction false} StatusesInPlanOrder(steps: seq<Step>, results: Results)
    requires (forall s :: s in steps ==> s.id in results) && results.Keys == ById(steps).Keys
    ensures StatusSet(InPlanOrder(steps, results)) == Statuses(results)
  {
    var ordered := InPlanOrder(steps, results);
    forall status | status in Statuses(results) ensures status in StatusSet(ordered) {
      var id :| id in results && results[id].status == status;
      StatusIsListed(steps, results, id);
    }
    forall status | status in StatusSet(ordered) ensures status in Statuses(results) {
      var r :| r in ordered && r.status == status;
      ListedStatusIsKept(steps, results, r);
    }
  }

  // ---------- what a run never does ----------

  /** Calls go only to operations that need no approval, and each comes from a step of the run. */
  lemma {:induction false} CallsNeedNoApproval(executionId: nat, userId: string, env: Environment, results: Results,
                                               order: seq<Step>)
    ensures forall c :: c in Calls(RunOf(executionId, userId, env, results), order) ==>
      && !env.registry.requiresApproval(c.service, c.operation)
      && c.executionId == executionId && c.stepId in IdSet(order)
  {
    if order != [] {
      CallsNeedNoApproval(executionId, userId, env, results, order[..|order| - 1]);
      assert order[|order| - 1] in order;
    }
  }

  /** Approvals are asked for only where the registry requires one, and start out awaiting. */
  lemma {:induction false} ApprovalsNeedApproval(executionId: nat, userId: string, env: Environment, results: Results,
                                                 order: seq<Step>)
    ensures forall row :: row in Approvals(RunOf(executionId, userId, env, results), order) ==>
      env.registry.requiresApproval(row.service, row.operation) && row.status == Awaiting && row.userId == userId
  {
    if order != [] {
      ApprovalsNeedApproval(executionId, userId, env, results, order[..|order| - 1]);
    }
  }

  predicate NoStepTwice(calls: seq<Call>) {
    forall i, j :: 0 <= i < j < |calls| ==> calls[i].stepId != calls[j].stepId
  }

  lemma {:induction false} OneMoreCall(calls: seq<Call>, more: seq<Call>, stepId: string)
    requires NoStepTwice(calls) && |more| <= 1
    requires forall c :: c in more ==> c.stepId == stepId
    requires forall c :: c in calls ==> c.stepId != stepId
    ensures NoStepTwice(calls + more)
  {
    assert forall i :: 0 <= i < |calls| ==> calls[i] in calls;
    assert forall i :: 0 <= i < |more| ==> more[i] in more;
  }

  /** No step is called twice. */
  lemma {:induction false} EachStepIsCalledOnce(executionId: nat, userId: string, env: Environment, results: Results,
                                                order: seq<Step>)
    requires UniqueIds(order)
    ensures NoStepTwice(Calls(RunOf(executionId, userId, env, results), order))
  {
    if order != [] {
      var front, last := order[..|order| - 1], order[|order| - 1];
      var run := RunOf(executionId, userId, env, results);
      EachStepIsCalledOnce(executionId, userId, env, results, front);
      CallsNeedNoApproval(executionId, userId, env, results, front);
      assert last.id !in IdSet(front);
      OneMoreCall(Calls(run, front), CallsOf(run, last), last.id);
    }
  }

  lemma {:induction false} RowsAreOfSteps(run: Run, order: seq<Step>, row: StepRow)
    ensures row in Rows(run, order) <==> exists s :: s in order && row == RowOf(run, s)
  {
    if order != [] {
      var front, last := order[..|order| - 1], order[|order| - 1];
      RowsAreOfSteps(run, front, row);
      assert forall s :: s in order <==> s in front || s == last;
    }
  }

  lemma {:induction false} ApprovalsAreOfSteps(run: Run, order: seq<Step>, row: ApprovalRow)
    ensures row in Approvals(run, order) <==> exists s :: s in order && row in ApprovalsOf(run, s)
  {
    if order != [] {
      var front, last := order[..|order| - 1], order[|order| - 1];
      ApprovalsAreOfSteps(run, front, row);
      assert forall s :: s in order <==> s in front || s == last;
    }
  }

  /** Every approval has a step row of its own, which awaits it. */
  lemma {:induction false} ApprovalHasStepRow(executionId: nat, userId: string, env: Environment, results: Results,
                                              order: seq<Step>, row: ApprovalRow) returns (own: StepRow)
    requires UniqueIds(order) && row in Approvals(RunOf(executionId, userId, env, results), order)
    ensures var rows := Rows(RunOf(executionId, userId, env, results), order);
            && own in rows && own.executionId == row.executionId && own.stepId == row.stepId
            && own.status == AwaitingApproval && own.arguments == row.arguments
            && forall other :: other in rows && other.stepId == row.stepId ==> other == own
  {
    var run := RunOf(executionId, userId, env, results);
    ApprovalsAreOfSteps(run, order, row);
    var step :| step in order && row in ApprovalsOf(run, step);
    own := RowOf(run, step);
    RowsAreOfSteps(run, order, own);
    forall other | other in Rows(run, order) && other.stepId == row.stepId ensures other == own {
      RowsAreOfSteps(run, order, other);
      var s :| s in order && other == RowOf(run, s);
      SameIdSameStep(order, s, step);
    }
  }

  /**
   An approval is asked for exactly by the steps whose operation needs one, whose
   dependencies are available and whose references resolve; it stores the resolved arguments.
   */
  lemma {:induction false} ApprovalsAreGatedSteps(executionId: nat, userId: string, env: Environment, results: Results,
                                                  order: seq<Step>, row: ApprovalRow)
    requires forall s :: s in order ==> DependenciesHaveResults(s, results)
    ensures row in Approvals(RunOf(executionId, userId, env, results), order) <==>
      exists s :: s in order && env.registry.requiresApproval(s.service, s.operation)
        && !AnyUnavailable(s.dependsOn, results)
        && Resolve(env.digits, s.arguments, DataOf(results)) == Ok(row.arguments)
        && row == ApprovalRow(env.approvalId(s.id), executionId, s.id, userId, Awaiting,
                              s.service, s.operation, row.arguments)
  {
    ApprovalsAreOfSteps(RunOf(executionId, userId, env, results), order, row);
  }
}
