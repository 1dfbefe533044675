/**
 Plans and their validation: the shapes exchanged between planner, executor and
 approvals, and the graph validator that runs when a plan is constructed.
 */
module Contracts {
  import opened Text
  import opened Json
  import opened References
  import opened Substitution
  import opened Graph

  datatype Service = Gmail | Calendar | Drive | Workspace

  function ServiceName(s: Service): string {
    match s
    case Gmail => "gmail"
    case Calendar => "google_calendar"
    case Drive => "google_drive"
    case Workspace => "workspace"
  }

  datatype Status = Pending | Running | Completed | Failed | Skipped | AwaitingApproval

  /** Why a step has no result: the executor's own errors by cause, and those agents report. */
  datatype ErrorInfo =
    | DependencyUnavailable
    | OperationFailed
    | ReferenceError(cause: ResolveError)
    | AgentError(code: string, details: Value)

  function ErrorCode(e: ErrorInfo): string {
    match e
    case DependencyUnavailable => "dependency_unavailable"
    case OperationFailed => "operation_failed"
    case ReferenceError(StepMissing(_, _)) => "reference_step_missing"
    case ReferenceError(FieldMissing(_, _)) => "reference_field_missing"
    case ReferenceError(ElementMissing(_, _)) => "reference_element_missing"
    case ReferenceError(ShapeMismatch(_, _)) => "reference_shape_mismatch"
    case ReferenceError(Malformed) => "reference_resolution_failed"
    case AgentError(code, _) => code
  }

  function ErrorDetails(e: ErrorInfo): Value {
    if e.AgentError? then e.details
    else if e.ReferenceError? && !e.cause.Malformed? then
      Obj([Field("source_step_id", Str(e.cause.stepId)), Field("path", Arr(e.cause.path))])
    else Obj([])
  }

  /** Errors of the executor's own that have one cause, whatever step and path they name. */
  predicate SameCause(a: ErrorInfo, b: ErrorInfo) {
    match (a, b)
    case (DependencyUnavailable, DependencyUnavailable) => true
    case (OperationFailed, OperationFailed) => true
    case (ReferenceError(x), ReferenceError(y)) =>
      && x.StepMissing? == y.StepMissing? && x.FieldMissing? == y.FieldMissing?
      && x.ElementMissing? == y.ElementMissing? && x.ShapeMismatch? == y.ShapeMismatch?
    case _ => false
  }

  /** No two causes share a code. */
  lemma {:induction false} CodesTellCausesApart(a: ErrorInfo, b: ErrorInfo)
    requires !a.AgentError? && !b.AgentError?
    ensures ErrorCode(a) == ErrorCode(b) <==> SameCause(a, b)
  {
    assert "dependency_unavailable"[0] != "reference_step_missing"[0];
    CodeLength(a);
    CodeLength(b);
  }

  lemma {:induction false} CodeLength(e: ErrorInfo)
    requires !e.AgentError?
    ensures |ErrorCode(e)| ==
            match e
            case OperationFailed => 16
            case DependencyUnavailable => 22
            case ReferenceError(StepMissing(_, _)) => 22
            case ReferenceError(FieldMissing(_, _)) => 23
            case ReferenceError(ShapeMismatch(_, _)) => 24
            case ReferenceError(ElementMissing(_, _)) => 25
            case ReferenceError(Malformed) => 27
  {
  }

  datatype StepResult = StepResult(stepId: string, status: Status, data: Value, error: Option<ErrorInfo>)

  datatype Step = Step(id: string, service: Service, operation: string, arguments: Value, dependsOn: seq<string>)

  /** What field validation guarantees of a step before the graph is validated. */
  predicate FieldsValid(step: Step) {
    && IsIdentifier(step.id)
    && step.operation != ""
    && step.arguments.Obj?
    && |set d | d in step.dependsOn| == |step.dependsOn|
    && forall d :: d in step.dependsOn ==> IsIdentifier(d)
  }

  predicate AllFieldsValid(steps: seq<Step>) {
    forall i :: 0 <= i < |steps| ==> FieldsValid(steps[i])
  }

  function Ids(steps: seq<Step>): (ids: seq<string>)
    ensures |ids| == |steps|
    ensures forall i :: 0 <= i < |ids| ==> ids[i] == steps[i].id
  {
    seq(|steps|, i requires 0 <= i < |steps| => steps[i].id)
  }

  function IdSet(steps: seq<Step>): set<string> {
    set s | s in steps :: s.id
  }

  predicate UniqueIds(steps: seq<Step>) {
    forall i, j :: 0 <= i < j < |steps| ==> steps[i].id != steps[j].id
  }

  /** `{step.step_id: step for step in steps}`; the last step of an id wins. */
  function ById(steps: seq<Step>): (m: map<string, Step>)
    ensures forall i :: 0 <= i < |steps| ==> steps[i].id in m
    ensures forall id :: id in m ==> m[id] in steps && m[id].id == id
    ensures UniqueIds(steps) ==> forall i :: 0 <= i < |steps| ==> m[steps[i].id] == steps[i]
  {
    if steps == [] then map[]
    else
      var front, last := steps[..|steps| - 1], steps[|steps| - 1];
      assert forall i :: 0 <= i < |front| ==> front[i] == steps[i];
      ById(front)[last.id := last]
  }

  function GraphOf(steps: seq<Step>): Graph {
    var m := ById(steps);
    map id | id in m :: m[id].dependsOn
  }

  /** The references of a step are well formed and name only its dependencies. */
  predicate ReferencesDeclared(step: Step) {
    var found := FindStepReferences(step.arguments);
    found.Some? && forall i :: 0 <= i < |found.value| ==> found.value[i] in step.dependsOn
  }

  /** Everything the graph validator promises of a plan it accepts. */
  ghost predicate GraphInvariant(steps: seq<Step>) {
    && UniqueIds(steps)
    && Closed(GraphOf(steps))
    && (forall i :: 0 <= i < |steps| ==> ReferencesDeclared(steps[i]))
    && Acyclic(GraphOf(steps))
  }

  ghost predicate ValidPlan(steps: seq<Step>) {
    AllFieldsValid(steps) && GraphInvariant(steps)
  }

  /** Steps each of which depends on the next, the last on the first. */
  ghost predicate IsStepCycle(steps: seq<Step>, c: seq<Step>) {
    && c != [] && (forall i :: 0 <= i < |c| ==> c[i] in steps)
    && (forall i :: 0 <= i < |c| - 1 ==> c[i + 1].id in c[i].dependsOn)
    && c[0].id in c[|c| - 1].dependsOn
  }

  /**
   What the validator is for, without its generator and its graph: ids are unique, dependencies
   are steps, nothing depends on itself in the end, and wherever a reference stands in a step's
   arguments it is sound and names a dependency of the step.
   */
  ghost predicate IsSoundPlan(steps: seq<Step>) {
    && (forall i, j :: 0 <= i < j < |steps| ==> steps[i].id != steps[j].id)
    && (forall s, d :: s in steps && d in s.dependsOn ==> exists t :: t in steps && t.id == d)
    && (forall c :: !IsStepCycle(steps, c))
    && forall s :: s in steps ==> RefersToDependencies(s)
  }

  ghost predicate RefersToDependencies(s: Step) {
    forall o :: Holds(s.arguments, o) ==> IsSound(o) && forall id :: Names(o, id) ==> id in s.dependsOn
  }

  lemma {:induction false} DeclaredMeansDependencies(s: Step)
    ensures ReferencesDeclared(s) <==> RefersToDependencies(s)
  {
    FindIsExact(s.arguments);
    var found := FindStepReferences(s.arguments);
    if found.Some? {
      assert forall i :: 0 <= i < |found.value| ==> found.value[i] in found.value;
      assert ReferencesDeclared(s) <==> forall id :: id in found.value ==> id in s.dependsOn;
      forall o | Holds(s.arguments, o) && ReferencesDeclared(s) ensures forall id :: Names(o, id) ==>
        id in s.dependsOn {
        forall id | Names(o, id) ensures id in found.value {}
      }
    }
  }

  lemma {:induction false} CycleOfSteps(steps: seq<Step>, c: seq<string>) returns (cycle: seq<Step>)
    requires UniqueIds(steps) && IsCycle(GraphOf(steps), c)
    ensures IsStepCycle(steps, cycle)
  {
    var m := ById(steps);
    cycle := seq(|c|, i requires 0 <= i < |c| => m[c[i]]);
    forall i | 0 <= i < |c| ensures cycle[i] in steps && cycle[i].id == c[i]
      && cycle[i].dependsOn == GraphOf(steps)[c[i]] {
      assert c[i] in m;
    }
  }

  lemma {:induction false} CycleOfIds(steps: seq<Step>, cycle: seq<Step>)
    requires UniqueIds(steps) && IsStepCycle(steps, cycle)
    ensures IsCycle(GraphOf(steps), Ids(cycle))
  {
    forall i | 0 <= i < |cycle| ensures cycle[i].id in GraphOf(steps)
      && GraphOf(steps)[cycle[i].id] == cycle[i].dependsOn {
      EdgesAreDependencies(steps, cycle[i]);
    }
  }

  lemma {:induction false} ClosedMeansKnown(steps: seq<Step>)
    requires UniqueIds(steps)
    ensures Closed(GraphOf(steps)) <==> forall s, d :: s in steps && d in s.dependsOn ==>
              exists t :: t in steps && t.id == d
  {
    var g := GraphOf(steps);
    if Closed(g) {
      forall s, d | s in steps && d in s.dependsOn ensures exists t :: t in steps && t.id == d {
        EdgesAreDependencies(steps, s);
        assert ById(steps)[d] in steps;
      }
    }
    if forall s, d :: s in steps && d in s.dependsOn ==> exists t :: t in steps && t.id == d {
      forall id, d | id in g && d in g[id] ensures d in g {
        assert ById(steps)[id] in steps;
        var t :| t in steps && t.id == d;
        EdgesAreDependencies(steps, t);
      }
    }
  }

  /** The graph invariant is that. */
  lemma {:induction false} InvariantMeansSound(steps: seq<Step>)
    ensures GraphInvariant(steps) <==> IsSoundPlan(steps)
  {
    if UniqueIds(steps) {
      ClosedMeansKnown(steps);
      AcyclicMeansNoStepCycle(steps);
      forall s | s in steps ensures ReferencesDeclared(s) <==> RefersToDependencies(s) {
        DeclaredMeansDependencies(s);
      }
      assert (forall i :: 0 <= i < |steps| ==> ReferencesDeclared(steps[i])) <==> forall s :: s in steps ==>
               ReferencesDeclared(s);
    }
  }

  lemma {:induction false} AcyclicMeansNoStepCycle(steps: seq<Step>)
    requires UniqueIds(steps)
    ensures Acyclic(GraphOf(steps)) <==> forall c :: !IsStepCycle(steps, c)
  {
    forall c | IsStepCycle(steps, c) ensures !Acyclic(GraphOf(steps)) {
      CycleOfIds(steps, c);
    }
    if c :| IsCycle(GraphOf(steps), c) {
      var cycle := CycleOfSteps(steps, c);
    }
  }

  datatype GraphError =
    | DuplicateIds
    | SelfDependency(step: Step)
    | UnknownDependency(step: Step, id: string)
    | MalformedReference(step: Step)
    | UnknownReference(step: Step, id: string)
    | UndeclaredReference(step: Step, id: string)
    | DependencyCycle

  /** The defect a validation error reports is really there. */
  ghost predicate Explains(steps: seq<Step>, e: GraphError) {
    match e
    case DuplicateIds => !UniqueIds(steps)
    case SelfDependency(s) => s in steps && s.id in s.dependsOn
    case UnknownDependency(s, id) => s in steps && id in s.dependsOn && id !in Ids(steps)
    case MalformedReference(s) => s in steps && exists o :: Holds(s.arguments, o) && !IsSound(o)
    case UnknownReference(s, id) => s in steps && Mentions(s, id) && id !in Ids(steps)
    case UndeclaredReference(s, id) => s in steps && Mentions(s, id) && id !in s.dependsOn
    case DependencyCycle => UniqueIds(steps) && Closed(GraphOf(steps)) && !Acyclic(GraphOf(steps))
  }

  /** Some reference in the step's arguments names this step. */
  ghost predicate Mentions(s: Step, id: string) {
    exists o :: Holds(s.arguments, o) && Names(o, id)
  }

  lemma {:induction false} IdsAreKeys(steps: seq<Step>)
    ensures forall id :: id in GraphOf(steps) <==> id in Ids(steps)
  {
    var m := ById(steps);
    forall id | id in m ensures id in Ids(steps) {
      var i :| 0 <= i < |steps| && steps[i] == m[id];
      assert Ids(steps)[i] == id;
    }
  }

  /** With unique ids a step's dependencies are its edges. */
  lemma {:induction false} EdgesAreDependencies(steps: seq<Step>, s: Step)
    requires UniqueIds(steps) && s in steps
    ensures s.id in GraphOf(steps) && GraphOf(steps)[s.id] == s.dependsOn
  {
    var i :| 0 <= i < |steps| && steps[i] == s;
    assert ById(steps)[steps[i].id] == s;
  }

  /** A defect reported by the validator excludes the invariant. */
  lemma {:induction false} ExplainedPlanIsInvalid(steps: seq<Step>, e: GraphError)
    requires Explains(steps, e)
    ensures !GraphInvariant(steps)
  {
    if GraphInvariant(steps) {
      IdsAreKeys(steps);
      if !e.DuplicateIds? && !e.DependencyCycle? {
        EdgesAreDependencies(steps, e.step);
        assert ReferencesDeclared(e.step);
        DeclaredMeansDependencies(e.step);
      }
      if e.SelfDependency? {
        assert IsCycle(GraphOf(steps), [e.step.id]);
      }
    }
  }

  /** A list is as long as its set of elements iff no element repeats. */
  lemma {:induction false} DistinctIffSetIsAsLarge(ids: seq<string>)
    ensures |set id | id in ids| <= |ids|
    ensures Distinct(ids) <==> |set id | id in ids| == |ids|
  {
    var all := set id | id in ids;
    if ids != [] {
      var n := |ids| - 1;
      var front, last := ids[..n], ids[n];
      var some := set id | id in front;
      DistinctIffSetIsAsLarge(front);
      assert all == some + {last};
      if last in front {
        var k :| 0 <= k < n && front[k] == last;
        assert ids[k] == ids[n];
        assert all == some;
      } else {
        assert Distinct(ids) <==> Distinct(front);
      }
    }
  }

  lemma {:induction false} UniqueIffSetIsAsLarge(steps: seq<Step>)
    ensures UniqueIds(steps) <==> |set id | id in Ids(steps)| == |Ids(steps)|
  {
    var ids := Ids(steps);
    DistinctIffSetIsAsLarge(ids);
    if UniqueIds(steps) {
      assert Distinct(ids);
    }
    if Distinct(ids) {
      forall i, j | 0 <= i < j < |steps| ensures steps[i].id != steps[j].id {
        assert ids[i] != ids[j];
      }
    }
  }

  predicate DependenciesKnown(step: Step, known: set<string>) {
    forall d :: d in step.dependsOn ==> d in known
  }

  lemma {:induction false} KnownDependenciesClose(steps: seq<Step>)
    requires forall i :: 0 <= i < |steps| ==> DependenciesKnown(steps[i], GraphOf(steps).Keys)
    ensures Closed(GraphOf(steps))
  {
    forall id | id in GraphOf(steps) ensures forall d :: d in GraphOf(steps)[id] ==> d in GraphOf(steps) {
      var s := ById(steps)[id];
      var i :| 0 <= i < |steps| && steps[i] == s;
      assert DependenciesKnown(steps[i], GraphOf(steps).Keys);
    }
  }

  /** Validation of one step's dependencies and references. */
  method ValidateStep(step: Step, known: set<string>) returns (r: Option<GraphError>)
    ensures r.None? ==>
      step.id !in step.dependsOn && DependenciesKnown(step, known) && ReferencesDeclared(step)
    ensures r.Some? ==>
      match r.value
      case SelfDependency(s) => s == step && s.id in s.dependsOn
      case UnknownDependency(s, id) => s == step && id in s.dependsOn && id !in known
      case MalformedReference(s) => s == step && exists o :: Holds(s.arguments, o) && !IsSound(o)
      case UnknownReference(s, id) => s == step && Mentions(s, id) && id !in known
      case UndeclaredReference(s, id) => s == step && Mentions(s, id) && id !in s.dependsOn
      case _ => false
  {
    for i := 0 to |step.dependsOn|
      invariant forall j :: 0 <= j < i ==> step.dependsOn[j] != step.id && step.dependsOn[j] in known
    {
      var d := step.dependsOn[i];
      if d == step.id {
        return Some(SelfDependency(step));
      }
      if d !in known {
        return Some(UnknownDependency(step, d));
      }
    }
    var found := FindStepReferences(step.arguments);
    FindIsExact(step.arguments);
    if found.None? {
      return Some(MalformedReference(step));
    }
    for i := 0 to |found.value|
      invariant forall j :: 0 <= j < i ==> found.value[j] in step.dependsOn
    {
      var id := found.value[i];
      assert id in found.value;
      if id !in known {
        return Some(UnknownReference(step, id));
      }
      if id !in step.dependsOn {
        return Some(UndeclaredReference(step, id));
      }
    }
    return None;
  }

  method ValidateSteps(steps: seq<Step>, known: set<string>) returns (r: Option<GraphError>)
    requires known == GraphOf(steps).Keys
    ensures r.None? ==> Closed(GraphOf(steps)) && forall i :: 0 <= i < |steps| ==> ReferencesDeclared(steps[i])
    ensures r.Some? ==> Explains(steps, r.value)
  {
    for i := 0 to |steps|
      invariant forall j :: 0 <= j < i ==> ReferencesDeclared(steps[j]) && DependenciesKnown(steps[j], known)
    {
      r := ValidateStep(steps[i], known);
      if r.Some? {
        IdsAreKeys(steps);
        return;
      }
    }
    KnownDependenciesClose(steps);
    return None;
  }

  /** The plan's graph validator: it accepts exactly the plans with the graph invariant. */
  method ValidateGraph(steps: seq<Step>) returns (r: Option<GraphError>)
    ensures r.None? <==> GraphInvariant(steps)
    ensures r.None? <==> IsSoundPlan(steps)
    ensures r.Some? ==> Explains(steps, r.value)
  {
    InvariantMeansSound(steps);
    var ids := Ids(steps);
    UniqueIffSetIsAsLarge(steps);
    if |ids| != |set id | id in ids| {
      ExplainedPlanIsInvalid(steps, DuplicateIds);
      return Some(DuplicateIds);
    }
    var graph := GraphOf(steps);
    var known := graph.Keys;
    IdsAreKeys(steps);
    r := ValidateSteps(steps, known);
    if r.Some? {
      ExplainedPlanIsInvalid(steps, r.value);
      return;
    }
    var cyclic, order := FindOrder(graph, ids);
    if cyclic {
      return Some(DependencyCycle);
    }
    return None;
  }
}
