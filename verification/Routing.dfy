/**
 Routing of contextual lookups: on a query about the context of an event, native searches
 that wait for a calendar search become searches of the workspace index, and services the
 query asks for that no index search covers get one of their own.
 */
module Routing {
  import opened Text
  import opened Json
  import opened References
  import opened Graph
  import opened Contracts
  import opened Operations
  import opened Planner

  predicate IsCalendarSearch(step: Step) {
    KindOf(step.service, step.operation).SearchEvents?
  }

  predicate IsNativeSearch(step: Step) {
    KindOf(step.service, step.operation).SearchEmails? || KindOf(step.service, step.operation).SearchFiles?
  }

  predicate IsIndexSearch(step: Step) {
    KindOf(step.service, step.operation).SearchWorkspace?
  }

  function CalendarIds(steps: seq<Step>): (ids: seq<string>)
    ensures forall id :: id in ids <==> exists i :: 0 <= i < |steps| && steps[i].id == id && IsCalendarSearch(steps[i])
  {
    if steps == [] then []
    else
      var front, last := steps[..|steps| - 1], steps[|steps| - 1];
      var ids := CalendarIds(front);
      assert forall i :: 0 <= i < |front| ==> front[i] == steps[i];
      if IsCalendarSearch(last) then ids + [last.id] else ids
  }

  /** The first dependency that is listed in `ids`. */
  function FirstIn(dependencies: seq<string>, ids: seq<string>): (r: Option<string>)
    ensures r.Some? ==> r.value in dependencies && r.value in ids
    ensures r.None? <==> forall d :: d in dependencies ==> d !in ids
  {
    if dependencies == [] then None
    else if dependencies[0] in ids then Some(dependencies[0])
    else
      var r := FirstIn(dependencies[1..], ids);
      assert forall d :: d in dependencies <==> d == dependencies[0] || d in dependencies[1..];
      r
  }

  /** A reference to the first event that a calendar search found. */
  function FirstEvent(calendar: string): Value {
    Obj([Field("$step", Str(calendar)), Field("path", Arr([Str("events"), Int(0)]))])
  }

  /** Arguments of an index search of one service about that event. */
  function EventSearch(calendar: string, service: Service): seq<Field> {
    [Field("query", FirstEvent(calendar)),
     Field("services", Arr([Str(ServiceName(service))])),
     Field("top_k", Int(5))]
  }

  /** A native search that waits for a calendar search becomes an index search about the event. */
  function RouteStep(step: Step, calendar: seq<string>): (r: Step)
    ensures r.id == step.id && r.dependsOn == step.dependsOn
    ensures IsCalendarSearch(r) <==> IsCalendarSearch(step)
    ensures !(IsNativeSearch(r) && exists d :: d in r.dependsOn && d in calendar)
  {
    var dependency := FirstIn(step.dependsOn, calendar);
    if !IsNativeSearch(step) || dependency.None? then step
    else
      step.(service := Workspace, operation := "workspace_search",
            arguments := Obj(EventSearch(dependency.value, step.service)))
  }

  function RouteAll(steps: seq<Step>, calendar: seq<string>): (r: seq<Step>)
    ensures |r| == |steps| && forall i :: 0 <= i < |r| ==> r[i] == RouteStep(steps[i], calendar)
  {
    seq(|steps|, i requires 0 <= i < |steps| => RouteStep(steps[i], calendar))
  }

  /** The service names an index search covers, or nothing when its `services` cannot be iterated. */
  function SearchedServices(step: Step): Option<set<string>> {
    if !IsIndexSearch(step) || !HasArguments(step) then Some({})
    else
      var items := Iterated(GetOr(step.arguments.fields, "services", Arr([])));
      if items.None? then None
      else Some(set i | 0 <= i < |items.value| && items.value[i].Str? :: items.value[i].s)
  }

  function PresentServices(steps: seq<Step>): (r: Option<set<string>>)
    ensures r.None? <==> exists i :: 0 <= i < |steps| && SearchedServices(steps[i]).None?
    ensures r.Some? ==> forall s :: s in r.value <==>
                          exists i :: 0 <= i < |steps| && SearchedServices(steps[i]).Some?
                            && s in SearchedServices(steps[i]).value
  {
    if steps == [] then Some({})
    else
      var front, last := steps[..|steps| - 1], steps[|steps| - 1];
      assert forall i :: 0 <= i < |front| ==> front[i] == steps[i];
      var before, here := PresentServices(front), SearchedServices(last);
      if before.None? || here.None? then None else Some(before.value + here.value)
  }

  /** The desired services without an index search, sorted by name. */
  function Missing(desired: set<Service>, present: set<string>): (r: seq<Service>)
    ensures forall s :: s in r <==> s in desired && s in {Gmail, Drive} && ServiceName(s) !in present
    ensures r == [] || r[0] in r
  {
    (if Gmail in desired && ServiceName(Gmail) !in present then [Gmail] else [])
    + (if Drive in desired && ServiceName(Drive) !in present then [Drive] else [])
  }

  // ---------- fresh ids ----------

  function BaseId(service: Service): string {
    "workspace_" + ServiceName(service)
  }

  function Suffixed(base: string, k: nat): (r: string)
    ensures r != base
  {
    base + "_" + Numeral(k)
  }

  /** A suffixed id goes on, behind its base, with an underscore and the decimal numeral of the count. */
  lemma {:induction false} SuffixedMeans(base: string, k: nat)
    ensures var id := Suffixed(base, k);
            && |id| > |base| + 1 && id[..|base|] == base && id[|base|] == '_'
            && IsNumeral(id[|base| + 1..]) && Parse(id[|base| + 1..]) == k
            && (k > 0 ==> id[|base| + 1] != '0')
  {
    var id := Suffixed(base, k);
    assert id[|base| + 1..] == Numeral(k);
    NumeralStarts(k);
  }

  lemma {:induction false} SuffixedInjective(base: string, j: nat, k: nat)
    requires Suffixed(base, j) == Suffixed(base, k)
    ensures j == k
  {
    var n := |base| + 1;
    assert Suffixed(base, j)[n..] == Numeral(j) && Suffixed(base, k)[n..] == Numeral(k);
    NumeralInjective(j, k);
  }

  predicate AllTaken(base: string, used: set<string>, k: nat) {
    base in used && forall j :: 2 <= j < k ==> Suffixed(base, j) in used
  }

  /** `id` is the base, or its first suffixed form, that is not in use. */
  ghost predicate IsFreshId(base: string, used: set<string>, id: string) {
    && id !in used
    && (id == base || exists k :: k >= 2 && id == Suffixed(base, k) && AllTaken(base, used, k))
  }

  /** A candidate that the search has passed. */
  predicate Passed(base: string, id: string, suffix: nat) {
    id == base || exists j :: 2 <= j < suffix && id == Suffixed(base, j)
  }

  lemma {:induction false} NextIsNotPassed(base: string, suffix: nat)
    ensures !Passed(base, Suffixed(base, suffix), suffix)
  {
    forall j | 2 <= j < suffix ensures Suffixed(base, suffix) != Suffixed(base, j) {
      if Suffixed(base, suffix) == Suffixed(base, j) {
        SuffixedInjective(base, suffix, j);
      }
    }
  }

  method FreshId(base: string, used: set<string>) returns (id: string)
    ensures IsFreshId(base, used, id)
  {
    id := base;
    var suffix: nat := 2;
    ghost var tried := {};
    while id in used
      invariant suffix >= 2 && tried <= used && id !in tried && Passed(base, id, suffix)
      invariant id == if suffix == 2 then base else Suffixed(base, suffix - 1)
      invariant suffix > 2 ==> AllTaken(base, used, suffix - 1)
      invariant forall t :: t in tried ==> Passed(base, t, suffix)
      decreases used - tried
    {
      tried := tried + {id};
      id := Suffixed(base, suffix);
      NextIsNotPassed(base, suffix);
      suffix := suffix + 1;
    }
  }

  lemma {:induction false} FreshIdIsIdentifier(base: string, used: set<string>, id: string)
    requires IsFreshId(base, used, id) && IsIdentifier(base)
    ensures IsIdentifier(id)
  {
  }

  // ---------- the routed plan ----------

  function NewSearch(id: string, service: Service, calendar: string): Step {
    Step(id, Workspace, "workspace_search", Obj(EventSearch(calendar, service)), [calendar])
  }

  predicate Applies(steps: seq<Step>, request: Request) {
    request.contextual && CalendarIds(steps) != []
  }

  /** `r` continues `routed` with one new search for each of `services`, under fresh ids. */
  ghost predicate AddsSearches(routed: seq<Step>, services: seq<Service>, calendar: string, r: seq<Step>) {
    && |r| == |routed| + |services|
    && r[..|routed|] == routed
    && forall j :: 0 <= j < |services| ==> IsNewSearch(r, |routed| + j, services[j], calendar)
  }

  ghost predicate IsNewSearch(r: seq<Step>, at: nat, service: Service, calendar: string)
    requires at < |r|
  {
    && r[at] == NewSearch(r[at].id, service, calendar)
    && IsFreshId(BaseId(service), IdSet(r[..at]), r[at].id)
  }

  /** The relation between a plan and its routed form. */
  ghost predicate IsRouted(steps: seq<Step>, request: Request, r: seq<Step>) {
    if !Applies(steps, request) then r == steps
    else
      var calendar := CalendarIds(steps);
      var routed := RouteAll(steps, calendar);
      var present := PresentServices(routed);
      present.Some? && AddsSearches(routed, Missing(request.contextServices, present.value), calendar[0], r)
  }

  /** Appends a search for each service. */
  method AddSearches(base: seq<Step>, services: seq<Service>, calendar: string) returns (routed: seq<Step>)
    ensures AddsSearches(base, services, calendar, routed)
  {
    routed := base;
    var usedIds := IdSet(routed);
    for i := 0 to |services|
      invariant AddsSearches(base, services[..i], calendar, routed)
      invariant usedIds == IdSet(routed)
    {
      var id := FreshId(BaseId(services[i]), usedIds);
      var step := NewSearch(id, services[i], calendar);
      AddOneSearch(base, services[..i], calendar, routed, services[i], step);
      assert services[..i] + [services[i]] == services[..i + 1];
      usedIds := usedIds + {id};
      routed := routed + [step];
    }
    assert services[..|services|] == services;
  }

  method RouteSteps(steps: seq<Step>, calendar: seq<string>) returns (routed: seq<Step>)
    ensures routed == RouteAll(steps, calendar)
  {
    routed := [];
    ghost var all := RouteAll(steps, calendar);
    for i := 0 to |steps|
      invariant routed == all[..i]
    {
      routed := routed + [RouteStep(steps[i], calendar)];
    }
  }

  /** The services of some index search cannot be iterated. */
  predicate RoutingCrashes(copies: seq<Step>, request: Request) {
    Applies(copies, request) && PresentServices(RouteAll(copies, CalendarIds(copies))).None?
  }

  method RouteContextualRetrieval(steps: seq<Step>, request: Request) returns (r: Result<seq<Step>, Fault>)
    ensures r.Ok? ==> IsRouted(steps, request, r.value)
    ensures r.Err? <==> RoutingCrashes(steps, request)
    ensures r.Err? ==> r.error == Crash
  {
    if !request.contextual {
      return Ok(steps);
    }
    var calendar := CalendarIds(steps);
    if calendar == [] {
      return Ok(steps);
    }
    var routed := RouteSteps(steps, calendar);
    var present := PresentServices(routed);
    if present.None? {
      return Err(Crash);
    }
    var missing := Missing(request.contextServices, present.value);
    routed := AddSearches(routed, missing, calendar[0]);
    return Ok(routed);
  }

  lemma {:induction false} AddOneSearch(routed: seq<Step>, services: seq<Service>, calendar: string, r: seq<Step>,
                                        service: Service, step: Step)
    requires AddsSearches(routed, services, calendar, r)
    requires step == NewSearch(step.id, service, calendar) && IsFreshId(BaseId(service), IdSet(r), step.id)
    ensures AddsSearches(routed, services + [service], calendar, r + [step])
    ensures IdSet(r + [step]) == IdSet(r) + {step.id}
  {
    var more := r + [step];
    assert more[..|routed|] == routed;
    forall j | 0 <= j < |services| + 1
      ensures IsNewSearch(more, |routed| + j, (services + [service])[j], calendar)
    {
      if j < |services| {
        assert IsNewSearch(r, |routed| + j, services[j], calendar);
        assert more[..|routed| + j] == r[..|routed| + j];
      } else {
        assert more[..|routed| + j] == r;
      }
    }
    IdSetAppends(r, step);
  }

  lemma {:induction false} IdSetAppends(r: seq<Step>, step: Step)
    ensures IdSet(r + [step]) == IdSet(r) + {step.id}
  {
    var more := r + [step];
    forall id | id in IdSet(r) ensures id in IdSet(more) {
      var i :| 0 <= i < |r| && r[i].id == id;
      assert more[i].id == id;
    }
    assert more[|r|].id == step.id;
  }

  // ---------- routing keeps the plan valid ----------

  lemma {:induction false} EventSearchIsDeclared(calendar: string, service: Service)
    requires IsIdentifier(calendar)
    ensures ValueDeclared(Obj(EventSearch(calendar, service)), [calendar])
  {
    var fields := EventSearch(calendar, service);
    FirstEventIsDeclared(calendar);
    StringsAreReferenceFree([Str(ServiceName(service))]);
    EventSearchHasNoStep(calendar, service);
    FieldsAreDeclared(fields, [calendar]);
  }

  lemma {:induction false} EventSearchHasNoStep(calendar: string, service: Service)
    ensures !Has(EventSearch(calendar, service), "$step")
  {
    assert "$step"[0] == '$';
  }

  lemma {:induction false} FirstEventIsDeclared(calendar: string)
    requires IsIdentifier(calendar)
    ensures FindStepReferences(FirstEvent(calendar)) == Some([calendar])
  {
    var fields := FirstEvent(calendar).fields;
    assert "$step"[0] != "path"[0];
    assert fields[1..] == [fields[1]];
    assert ReferenceOf(fields) == Reference(Str(calendar), fields[1].value);
    IdentifierIsTrimmed(calendar);
  }

  /** Declared references stay declared under more ids. */
  lemma {:induction false} DeclaredUnderMore(v: Value, ids: seq<string>, more: seq<string>)
    requires ValueDeclared(v, ids) && forall id :: id in ids ==> id in more
    ensures ValueDeclared(v, more)
  {
  }

  /** Routing replaces the arguments of the step. */
  predicate Reroutes(step: Step, calendar: seq<string>) {
    IsNativeSearch(step) && FirstIn(step.dependsOn, calendar).Some?
  }

  /** Rerouting a step declares its reference; other steps are left as they are. */
  lemma {:induction false} RoutedStepIsValid(step: Step, calendar: seq<string>)
    requires FieldsValid(step)
    ensures FieldsValid(RouteStep(step, calendar))
    ensures ReferencesDeclared(RouteStep(step, calendar)) <==> Reroutes(step, calendar) || ReferencesDeclared(step)
  {
    var dependency := FirstIn(step.dependsOn, calendar);
    if dependency.Some? {
      EventSearchIsDeclared(dependency.value, step.service);
      DeclaredUnderMore(Obj(EventSearch(dependency.value, step.service)), [dependency.value], step.dependsOn);
    }
  }

  /** The routed form of a plan of valid fields whose shape is that of a valid plan. */
  lemma {:induction false} RouteAllKeepsValidity(valid: seq<Step>, steps: seq<Step>, calendar: seq<string>)
    requires ValidPlan(valid) && SameShape(valid, steps) && AllFieldsValid(steps)
    ensures ValidPlan(RouteAll(steps, calendar)) <==>
            forall i :: 0 <= i < |steps| ==> Reroutes(steps[i], calendar) || ReferencesDeclared(steps[i])
  {
    var routed := RouteAll(steps, calendar);
    forall i | 0 <= i < |routed|
      ensures FieldsValid(routed[i])
      ensures ReferencesDeclared(routed[i]) <==> Reroutes(steps[i], calendar) || ReferencesDeclared(steps[i])
    {
      RoutedStepIsValid(steps[i], calendar);
    }
    SameShapeSameInvariant(valid, routed);
  }

  lemma {:induction false} AppendedGraph(g: Graph, id: string, dependencies: seq<string>)
    requires Closed(g) && Acyclic(g) && id !in g && forall d :: d in dependencies ==> d in g
    ensures Closed(g[id := dependencies]) && Acyclic(g[id := dependencies])
  {
    AcyclicHasOrder(g);
    var more := g[id := dependencies];
    var order :| IsTopological(g, order);
    var longer := order + [id];
    forall i | 0 <= i < |longer|
      ensures longer[i] in more && forall d :: d in more[longer[i]] ==> d in longer[..i]
    {
      if i < |order| {
        assert longer[..i] == order[..i];
      } else {
        assert longer[..i] == order;
      }
    }
    TopologicalIsAcyclic(more, longer);
  }

  lemma {:induction false} GraphOfAppended(steps: seq<Step>, step: Step)
    ensures GraphOf(steps + [step]) == GraphOf(steps)[step.id := step.dependsOn]
  {
    assert (steps + [step])[..|steps|] == steps;
  }

  lemma {:induction false} AppendKeepsUniqueness(steps: seq<Step>, step: Step)
    requires UniqueIds(steps) && step.id !in IdSet(steps)
    ensures UniqueIds(steps + [step]) && step.id !in GraphOf(steps)
  {
  }

  /** A step with a new id that depends on known steps only can be appended to a valid plan. */
  lemma {:induction false} AppendKeepsInvariant(steps: seq<Step>, step: Step)
    requires GraphInvariant(steps) && ReferencesDeclared(step)
    requires step.id !in IdSet(steps) && forall d :: d in step.dependsOn ==> d in GraphOf(steps)
    ensures GraphInvariant(steps + [step])
  {
    AppendKeepsUniqueness(steps, step);
    GraphOfAppended(steps, step);
    AppendedGraph(GraphOf(steps), step.id, step.dependsOn);
  }

  lemma {:induction false} AppendKeepsValidity(steps: seq<Step>, step: Step)
    requires ValidPlan(steps) && FieldsValid(step) && ReferencesDeclared(step)
    requires step.id !in IdSet(steps) && forall d :: d in step.dependsOn ==> d in GraphOf(steps)
    ensures ValidPlan(steps + [step])
  {
    AppendKeepsInvariant(steps, step);
  }

  lemma {:induction false} NewSearchIsValid(id: string, service: Service, calendar: string)
    requires IsIdentifier(id) && IsIdentifier(calendar)
    ensures FieldsValid(NewSearch(id, service, calendar)) && ReferencesDeclared(NewSearch(id, service, calendar))
  {
    assert (set d | d in [calendar]) == {calendar};
    EventSearchIsDeclared(calendar, service);
  }

  lemma {:induction false} BaseIdIsIdentifier(service: Service)
    ensures IsIdentifier(BaseId(service))
  {
  }

  lemma {:induction false} AddedSearchKeepsValidity(front: seq<Step>, service: Service, calendar: string, id: string)
    requires ValidPlan(front) && calendar in GraphOf(front)
    requires IsFreshId(BaseId(service), IdSet(front), id)
    ensures ValidPlan(front + [NewSearch(id, service, calendar)])
    ensures calendar in GraphOf(front + [NewSearch(id, service, calendar)])
  {
    var step := NewSearch(id, service, calendar);
    BaseIdIsIdentifier(service);
    FreshIdIsIdentifier(BaseId(service), IdSet(front), id);
    KnownIdIsIdentifier(front, calendar);
    NewSearchIsValid(id, service, calendar);
    AppendKeepsValidity(front, step);
    GraphOfAppended(front, step);
  }

  lemma {:induction false} KnownIdIsIdentifier(steps: seq<Step>, id: string)
    requires AllFieldsValid(steps) && id in GraphOf(steps)
    ensures IsIdentifier(id)
  {
    var i :| 0 <= i < |steps| && steps[i] == ById(steps)[id];
    assert FieldsValid(steps[i]);
  }

  lemma {:induction false} AddedSearchesKeepValidity(routed: seq<Step>, services: seq<Service>, calendar: string,
                                                     r: seq<Step>)
    requires AddsSearches(routed, services, calendar, r)
    requires ValidPlan(routed) && calendar in GraphOf(routed)
    ensures ValidPlan(r) && calendar in GraphOf(r)
    decreases |services|
  {
    if services == [] {
      assert r == routed;
    } else {
      AddsFewer(routed, services, calendar, r);
      AddedSearchesKeepValidity(routed, services[..|services| - 1], calendar, r[..|r| - 1]);
      LastSearchKeepsValidity(routed, services, calendar, r);
    }
  }

  lemma {:induction false} LastSearchKeepsValidity(routed: seq<Step>, services: seq<Service>, calendar: string,
                                                   r: seq<Step>)
    requires AddsSearches(routed, services, calendar, r) && services != []
    requires ValidPlan(r[..|r| - 1]) && calendar in GraphOf(r[..|r| - 1])
    ensures ValidPlan(r) && calendar in GraphOf(r)
  {
    LastAdded(routed, services, calendar, r);
    AddedSearchKeepsValidity(r[..|r| - 1], services[|services| - 1], calendar, r[|r| - 1].id);
  }

  lemma {:induction false} LastAdded(routed: seq<Step>, services: seq<Service>, calendar: string, r: seq<Step>)
    requires AddsSearches(routed, services, calendar, r) && services != []
    ensures var front, service, id := r[..|r| - 1], services[|services| - 1], r[|r| - 1].id;
            r == front + [NewSearch(id, service, calendar)] && IsFreshId(BaseId(service), IdSet(front), id)
  {
    var n := |services| - 1;
    assert IsNewSearch(r, |routed| + n, services[n], calendar);
    assert |routed| + n == |r| - 1;
    assert r == r[..|r| - 1] + [r[|r| - 1]];
  }

  lemma {:induction false} AddsFewer(routed: seq<Step>, services: seq<Service>, calendar: string, r: seq<Step>)
    requires AddsSearches(routed, services, calendar, r) && services != []
    ensures AddsSearches(routed, services[..|services| - 1], calendar, r[..|r| - 1])
  {
    var front := r[..|r| - 1];
    assert front[..|routed|] == routed;
    forall j | 0 <= j < |services| - 1 ensures IsNewSearch(front, |routed| + j, services[j], calendar) {
      assert IsNewSearch(r, |routed| + j, services[j], calendar);
      assert front[..|routed| + j] == r[..|routed| + j];
    }
  }

  /** A step whose references are declared, or whose arguments routing replaces. */
  predicate SoundAfterRouting(steps: seq<Step>, request: Request, step: Step) {
    ReferencesDeclared(step) || (Applies(steps, request) && Reroutes(step, CalendarIds(steps)))
  }

  /**
   Routing a plan of valid fields and the shape of a valid plan keeps the whole graph invariant,
   unless some step is unsound.
   */
  lemma {:induction false} RoutingKeepsValidity(valid: seq<Step>, steps: seq<Step>, request: Request, r: seq<Step>)
    requires ValidPlan(valid) && SameShape(valid, steps) && AllFieldsValid(steps)
    requires IsRouted(steps, request, r)
    ensures ValidPlan(r) <==> forall i :: 0 <= i < |steps| ==> SoundAfterRouting(steps, request, steps[i])
  {
    if Applies(steps, request) {
      var calendar := CalendarIds(steps);
      var routed := RouteAll(steps, calendar);
      RouteAllKeepsValidity(valid, steps, calendar);
      if ValidPlan(routed) {
        CalendarIsKnown(steps, calendar);
        var missing := Missing(request.contextServices, PresentServices(routed).value);
        AddedSearchesKeepValidity(routed, missing, calendar[0], r);
      } else {
        var i :| 0 <= i < |steps| && !(Reroutes(steps[i], calendar) || ReferencesDeclared(steps[i]));
        UnsoundStepStays(steps, request, r, i);
      }
    } else {
      SameShapeSameInvariant(valid, steps);
    }
  }

  lemma {:induction false} CalendarIsKnown(steps: seq<Step>, calendar: seq<string>)
    requires calendar == CalendarIds(steps) && calendar != []
    ensures calendar[0] in GraphOf(RouteAll(steps, calendar))
  {
    assert calendar[0] in calendar;
    var i :| 0 <= i < |steps| && steps[i].id == calendar[0];
    assert RouteAll(steps, calendar)[i].id == calendar[0];
  }

  lemma {:induction false} UnsoundStepStays(steps: seq<Step>, request: Request, r: seq<Step>, i: nat)
    requires Applies(steps, request) && IsRouted(steps, request, r) && i < |steps|
    requires !(Reroutes(steps[i], CalendarIds(steps)) || ReferencesDeclared(steps[i]))
    ensures r[i] == steps[i] && !GraphInvariant(r)
  {
    var routed := RouteAll(steps, CalendarIds(steps));
    assert r[i] == r[..|routed|][i] == routed[i];
    assert !ReferencesDeclared(r[i]);
  }

  // ---------- what routing achieves ----------

  lemma {:induction false} RouteAllKeepsCalendarIds(steps: seq<Step>, calendar: seq<string>)
    ensures CalendarIds(RouteAll(steps, calendar)) == CalendarIds(steps)
  {
    if steps != [] {
      var n := |steps| - 1;
      RouteAllKeepsCalendarIds(steps[..n], calendar);
      assert RouteAll(steps, calendar)[..n] == RouteAll(steps[..n], calendar);
    }
  }

  lemma {:induction false} AddedSearchesKeepCalendarIds(routed: seq<Step>, services: seq<Service>, calendar: string,
                                                        r: seq<Step>)
    requires AddsSearches(routed, services, calendar, r)
    ensures CalendarIds(r) == CalendarIds(routed)
    decreases |services|
  {
    if services == [] {
      assert r == routed;
    } else {
      LastAdded(routed, services, calendar, r);
      AddsFewer(routed, services, calendar, r);
      AddedSearchesKeepCalendarIds(routed, services[..|services| - 1], calendar, r[..|r| - 1]);
    }
  }

  lemma {:induction false} NewSearchCovers(id: string, service: Service, calendar: string)
    ensures IsIndexSearch(NewSearch(id, service, calendar))
    ensures SearchedServices(NewSearch(id, service, calendar)) == Some({ServiceName(service)})
  {
    var fields := EventSearch(calendar, service);
    assert fields[1..][0] == fields[1];
    assert Lookup(fields, "services") == Some(fields[1].value);
    ServicesOfOne(ServiceName(service));
  }

  lemma {:induction false} ServicesOfOne(name: string)
    ensures (set i | 0 <= i < |[Str(name)]| && [Str(name)][i].Str? :: [Str(name)][i].s) == {name}
  {
    assert [Str(name)][0].s == name;
  }

  /** Some step of the plan searches the index for a service. */
  ghost predicate Covers(steps: seq<Step>, service: Service) {
    exists i :: 0 <= i < |steps| && CoveredBy(steps[i], service)
  }

  ghost predicate CoveredBy(step: Step, service: Service) {
    IsIndexSearch(step) && SearchedServices(step).Some? && ServiceName(service) in SearchedServices(step).value
  }

  /** A native search that waits for a calendar search. */
  ghost predicate WaitsNatively(step: Step, calendar: seq<string>) {
    IsNativeSearch(step) && exists d :: d in step.dependsOn && d in calendar
  }

  /** Each routed or added step, seen from the result. */
  lemma {:induction false} RoutedSteps(steps: seq<Step>, request: Request, r: seq<Step>, i: nat)
    requires Applies(steps, request) && IsRouted(steps, request, r) && i < |r|
    ensures i < |steps| ==> r[i] == RouteStep(steps[i], CalendarIds(steps))
    ensures i >= |steps| ==> exists service :: r[i] == NewSearch(r[i].id, service, CalendarIds(steps)[0])
  {
    var routed := RouteAll(steps, CalendarIds(steps));
    var missing := Missing(request.contextServices, PresentServices(routed).value);
    AddedSteps(routed, missing, CalendarIds(steps)[0], r, i);
  }

  lemma {:induction false} AddedSteps(routed: seq<Step>, missing: seq<Service>, calendar: string, r: seq<Step>, i: nat)
    requires AddsSearches(routed, missing, calendar, r) && i < |r|
    ensures i < |routed| ==> r[i] == routed[i]
    ensures i >= |routed| ==> exists service :: r[i] == NewSearch(r[i].id, service, calendar)
  {
    if i < |routed| {
      assert r[i] == r[..|routed|][i];
    } else {
      assert IsNewSearch(r, |routed| + (i - |routed|), missing[i - |routed|], calendar);
    }
  }

  /** Existing steps keep their ids and dependencies. */
  lemma {:induction false} RoutingKeepsShape(steps: seq<Step>, request: Request, r: seq<Step>)
    requires IsRouted(steps, request, r)
    ensures |r| >= |steps| && SameShape(steps, r[..|steps|])
    ensures CalendarIds(r) == CalendarIds(steps)
  {
    if Applies(steps, request) {
      var calendar := CalendarIds(steps);
      var routed := RouteAll(steps, calendar);
      RouteAllKeepsCalendarIds(steps, calendar);
      var missing := Missing(request.contextServices, PresentServices(routed).value);
      AddedSearchesKeepCalendarIds(routed, missing, calendar[0], r);
    }
  }

  lemma {:induction false} NewSearchIsIndexSearch(id: string, service: Service, calendar: string)
    ensures IsIndexSearch(NewSearch(id, service, calendar))
  {
  }

  /** No native search is left that waits for a calendar search. */
  lemma {:induction false} NoNativeSearchWaits(steps: seq<Step>, request: Request, r: seq<Step>)
    requires Applies(steps, request) && IsRouted(steps, request, r)
    ensures forall i :: 0 <= i < |r| ==> !WaitsNatively(r[i], CalendarIds(r))
  {
    RoutingKeepsShape(steps, request, r);
    forall i | 0 <= i < |r| ensures !WaitsNatively(r[i], CalendarIds(steps)) {
      RoutedStepDoesNotWait(steps, request, r, i);
    }
  }

  lemma {:induction false} RoutedStepDoesNotWait(steps: seq<Step>, request: Request, r: seq<Step>, i: nat)
    requires Applies(steps, request) && IsRouted(steps, request, r) && i < |r|
    ensures !WaitsNatively(r[i], CalendarIds(steps))
  {
    RoutedSteps(steps, request, r, i);
    if i >= |steps| {
      var service :| r[i] == NewSearch(r[i].id, service, CalendarIds(steps)[0]);
      NewSearchIsIndexSearch(r[i].id, service, CalendarIds(steps)[0]);
    }
  }

  lemma {:induction false} PresentServiceIsCovered(routed: seq<Step>, services: seq<Service>, calendar: string,
                                                   r: seq<Step>, s: Service)
    requires AddsSearches(routed, services, calendar, r)
    requires PresentServices(routed).Some? && ServiceName(s) in PresentServices(routed).value
    ensures Covers(r, s)
  {
    var i :| 0 <= i < |routed| && SearchedServices(routed[i]).Some?
      && ServiceName(s) in SearchedServices(routed[i]).value;
    assert r[i] == r[..|routed|][i];
    assert CoveredBy(r[i], s);
  }

  lemma {:induction false} AddedServiceIsCovered(routed: seq<Step>, services: seq<Service>, calendar: string,
                                                 r: seq<Step>, s: Service)
    requires AddsSearches(routed, services, calendar, r) && s in services
    ensures Covers(r, s)
  {
    var j :| 0 <= j < |services| && services[j] == s;
    var at := |routed| + j;
    assert IsNewSearch(r, at, services[j], calendar);
    NewSearchCovers(r[at].id, s, calendar);
    assert CoveredBy(r[at], s);
  }

  /** Every service asked for is covered by an index search. */
  lemma {:induction false} DesiredServicesAreCovered(steps: seq<Step>, request: Request, r: seq<Step>)
    requires Applies(steps, request) && IsRouted(steps, request, r)
    ensures forall s :: s in request.contextServices && s in {Gmail, Drive} ==> Covers(r, s)
  {
    var calendar := CalendarIds(steps);
    var routed := RouteAll(steps, calendar);
    var present := PresentServices(routed).value;
    var missing := Missing(request.contextServices, present);
    forall s | s in request.contextServices && s in {Gmail, Drive} ensures Covers(r, s) {
      if ServiceName(s) in present {
        PresentServiceIsCovered(routed, missing, calendar[0], r, s);
      } else {
        AddedServiceIsCovered(routed, missing, calendar[0], r, s);
      }
    }
  }

  /** The services present in the result are known, and cover what is asked for. */
  lemma {:induction false} NothingIsMissing(steps: seq<Step>, request: Request, r: seq<Step>)
    requires Applies(steps, request) && IsRouted(steps, request, r)
    ensures PresentServices(r).Some? && Missing(request.contextServices, PresentServices(r).value) == []
  {
    var routed := RouteAll(steps, CalendarIds(steps));
    forall i | 0 <= i < |r| ensures SearchedServices(r[i]).Some? {
      RoutedSteps(steps, request, r, i);
      if i < |steps| {
        assert r[i] == routed[i];
      } else {
        var service :| r[i] == NewSearch(r[i].id, service, CalendarIds(steps)[0]);
        NewSearchCovers(r[i].id, service, CalendarIds(steps)[0]);
      }
    }
    DesiredServicesAreCovered(steps, request, r);
    var missing := Missing(request.contextServices, PresentServices(r).value);
    forall s ensures s !in missing {
      if s in request.contextServices && s in {Gmail, Drive} {
        assert Covers(r, s);
      }
    }
  }

  /** Routing a routed plan changes nothing. */
  lemma {:induction false} RoutingIsIdempotent(steps: seq<Step>, request: Request, r: seq<Step>, again: seq<Step>)
    requires IsRouted(steps, request, r)
    ensures IsRouted(r, request, again) <==> again == r
  {
    RoutingKeepsShape(steps, request, r);
    if Applies(steps, request) {
      var calendar := CalendarIds(r);
      NoNativeSearchWaits(steps, request, r);
      NothingIsMissing(steps, request, r);
      forall i | 0 <= i < |r| ensures RouteStep(r[i], calendar) == r[i] {
        assert !WaitsNatively(r[i], calendar);
      }
      assert RouteAll(r, calendar) == r;
      assert r[..|r|] == r;
      assert |again| == |r| ==> again[..|r|] == again;
    }
  }

  // ---------- the planner ----------

  lemma {:induction false} ConstrainingKeepsCalendarIds(steps: seq<Step>, copies: seq<Step>)
    requires |steps| == |copies| && forall i :: 0 <= i < |steps| ==> ConstrainedStep(steps[i], copies[i])
    ensures CalendarIds(copies) == CalendarIds(steps)
  {
    if steps != [] {
      var n := |steps| - 1;
      ConstrainingKeepsCalendarIds(steps[..n], copies[..n]);
      assert ConstrainedStep(steps[n], copies[n]);
    }
  }

  /** What the rewrite owes a plan: the existing steps' shape, and its purpose when routing applies. */
  ghost predicate IsRewritten(steps: seq<Step>, request: Request, r: seq<Step>) {
    && |r| >= |steps| && SameShape(steps, r[..|steps|])
    && (Applies(steps, request) ==>
          && (forall i :: 0 <= i < |r| ==> !WaitsNatively(r[i], CalendarIds(r)))
          && forall s :: s in request.contextServices && s in {Gmail, Drive} ==> Covers(r, s))
  }

  lemma {:induction false} RoutedIsRewritten(steps: seq<Step>, copies: seq<Step>, request: Request, r: seq<Step>)
    requires |steps| == |copies| && forall i :: 0 <= i < |steps| ==> ConstrainedStep(steps[i], copies[i])
    requires IsRouted(copies, request, r)
    ensures IsRewritten(steps, request, r)
  {
    ConstrainingKeepsCalendarIds(steps, copies);
    RoutingKeepsShape(copies, request, r);
    if Applies(copies, request) {
      NoNativeSearchWaits(copies, request, r);
      DesiredServicesAreCovered(copies, request, r);
    }
    forall i | 0 <= i < |steps| ensures steps[i].id == r[i].id && steps[i].dependsOn == r[i].dependsOn {
      assert ConstrainedStep(steps[i], copies[i]) && r[i] == r[..|steps|][i];
    }
  }

  /**
   The rewrite leaves a step without declared references: it is spoilt, and routing does not replace
   its arguments.
   */
  predicate StaysSpoilt(steps: seq<Step>, step: Step, intent: Intent, request: Request)
    requires HasArguments(step)
  {
    Spoils(step, intent, request) && !(Applies(steps, request) && Reroutes(step, CalendarIds(steps)))
  }

  lemma {:induction false} EachIsConstrained(steps: seq<Step>, intent: Intent, request: Request, copies: seq<Step>)
    requires IsConstrained(steps, intent, request, copies)
    ensures |steps| == |copies| && forall i :: 0 <= i < |steps| ==> ConstrainedStep(steps[i], copies[i])
    ensures forall i :: 0 <= i < |steps| ==> HasArguments(steps[i])
    ensures forall i :: 0 <= i < |steps| && ReferencesDeclared(steps[i]) ==>
              (ReferencesDeclared(copies[i]) <==> !Spoils(steps[i], intent, request))
  {
    forall i | 0 <= i < |steps|
      ensures ConstrainedStep(steps[i], copies[i]) && HasArguments(steps[i])
      ensures ReferencesDeclared(steps[i]) ==> (ReferencesDeclared(copies[i]) <==> !Spoils(steps[i], intent, request))
    {
      assert ConstrainsTo(steps[i], intent, request, copies[i]);
    }
  }

  lemma {:induction false} SoundIffNotSpoilt(steps: seq<Step>, intent: Intent, request: Request, copies: seq<Step>,
                                             i: nat)
    requires IsConstrained(steps, intent, request, copies) && i < |steps| && ReferencesDeclared(steps[i])
    ensures HasArguments(steps[i])
    ensures SoundAfterRouting(copies, request, copies[i]) <==> !StaysSpoilt(steps, steps[i], intent, request)
  {
    EachIsConstrained(steps, intent, request, copies);
    ConstrainingKeepsCalendarIds(steps, copies);
  }

  lemma {:induction false} ConstrainedFieldsAreValid(steps: seq<Step>, intent: Intent, request: Request,
                                                     copies: seq<Step>)
    requires IsConstrained(steps, intent, request, copies) && AllFieldsValid(steps)
    ensures AllFieldsValid(copies) && SameShape(steps, copies)
  {
    EachIsConstrained(steps, intent, request, copies);
    forall i | 0 <= i < |copies|
      ensures FieldsValid(copies[i]) && copies[i].id == steps[i].id && copies[i].dependsOn == steps[i].dependsOn
    {
      assert FieldsValid(steps[i]) && ConstrainedStep(steps[i], copies[i]);
    }
  }

  /** The rewrite of a valid plan is valid exactly when no step stays spoilt. */
  lemma {:induction false} RewriteKeepsValidity(steps: seq<Step>, intent: Intent, request: Request, copies: seq<Step>,
                                                r: seq<Step>)
    requires ValidPlan(steps) && IsConstrained(steps, intent, request, copies) && IsRouted(copies, request, r)
    ensures ValidPlan(r) <==>
            forall i :: 0 <= i < |steps| ==> HasArguments(steps[i]) && !StaysSpoilt(steps, steps[i], intent, request)
  {
    ConstrainedFieldsAreValid(steps, intent, request, copies);
    EachIsConstrained(steps, intent, request, copies);
    RoutingKeepsValidity(steps, copies, request, r);
    forall i | 0 <= i < |steps|
      ensures HasArguments(steps[i])
      ensures SoundAfterRouting(copies, request, copies[i]) <==> !StaysSpoilt(steps, steps[i], intent, request)
    {
      assert ConstrainedStep(steps[i], copies[i]) && ReferencesDeclared(steps[i]);
      SoundIffNotSpoilt(steps, intent, request, copies, i);
    }
  }

  /** A rewritten plan that the registry accepts is valid, though its graph was not validated again. */
  lemma {:induction false} AcceptedRewriteIsValid(clock: Clock, steps: seq<Step>, intent: Intent, request: Request,
                                                  copies: seq<Step>, r: seq<Step>)
    requires ValidPlan(steps) && IsConstrained(steps, intent, request, copies) && IsRouted(copies, request, r)
    requires PlanVerdict(clock, r) == Valid
    ensures ValidPlan(r)
  {
    RewriteKeepsValidity(steps, intent, request, copies, r);
    forall i | 0 <= i < |steps| ensures HasArguments(steps[i]) && !StaysSpoilt(steps, steps[i], intent, request) {
      AcceptedStepIsNotSpoilt(clock, steps, intent, request, copies, r, i);
    }
  }

  lemma {:induction false} AcceptedStepIsNotSpoilt(clock: Clock, steps: seq<Step>, intent: Intent, request: Request,
                                                   copies: seq<Step>, r: seq<Step>, i: nat)
    requires IsConstrained(steps, intent, request, copies) && IsRouted(copies, request, r)
    requires PlanVerdict(clock, r) == Valid && i < |steps|
    ensures HasArguments(steps[i]) && !StaysSpoilt(steps, steps[i], intent, request)
  {
    EachIsConstrained(steps, intent, request, copies);
    ConstrainingKeepsCalendarIds(steps, copies);
    if StaysSpoilt(steps, steps[i], intent, request) {
      UnroutedStepStays(copies, request, r, i);
      ValidPlanHasValidSteps(clock, r);
      AcceptedPlanIsNotSpoilt(clock, steps[i], r[i], intent, request);
    }
  }

  lemma {:induction false} UnroutedStepStays(steps: seq<Step>, request: Request, r: seq<Step>, i: nat)
    requires IsRouted(steps, request, r) && i < |steps|
    requires !(Applies(steps, request) && Reroutes(steps[i], CalendarIds(steps)))
    ensures i < |r| && r[i] == steps[i]
  {
    if Applies(steps, request) {
      var routed := RouteAll(steps, CalendarIds(steps));
      assert r[i] == r[..|routed|][i] == routed[i];
    }
  }

  /** The whole rewrite: canonical arguments, then routing. */
  ghost predicate RewritesTo(steps: seq<Step>, intent: Intent, request: Request, r: seq<Step>) {
    exists copies :: IsConstrained(steps, intent, request, copies) && IsRouted(copies, request, r)
  }

  /** The rewrite fails: a step cannot be constrained, or the services of an index search cannot be iterated. */
  ghost predicate RewriteFails(steps: seq<Step>, intent: Intent, request: Request, fault: Fault)
    requires forall i :: 0 <= i < |steps| ==> HasArguments(steps[i])
  {
    || ConstrainingFails(steps, intent, request, fault)
    || (fault == Crash && exists copies ::
         IsConstrained(steps, intent, request, copies) && RoutingCrashes(copies, request))
  }

  lemma {:induction false} RewrittenFacts(steps: seq<Step>, intent: Intent, request: Request, r: seq<Step>)
    requires ValidPlan(steps) && RewritesTo(steps, intent, request, r)
    ensures IsRewritten(steps, request, r)
    ensures ValidPlan(r) <==>
            forall i :: 0 <= i < |steps| ==> HasArguments(steps[i]) && !StaysSpoilt(steps, steps[i], intent, request)
    ensures forall clock: Clock :: PlanVerdict(clock, r) == Valid ==> ValidPlan(r)
  {
    var copies :| IsConstrained(steps, intent, request, copies) && IsRouted(copies, request, r);
    EachIsConstrained(steps, intent, request, copies);
    RoutedIsRewritten(steps, copies, request, r);
    RewriteKeepsValidity(steps, intent, request, copies, r);
    forall clock: Clock | PlanVerdict(clock, r) == Valid ensures ValidPlan(r) {
      AcceptedRewriteIsValid(clock, steps, intent, request, copies, r);
    }
  }

  /** The intent's constraints on a plan: canonical arguments, then routing. */
  method ApplyIntentConstraints(steps: seq<Step>, intent: Intent, request: Request)
    returns (r: Result<seq<Step>, Fault>)
    requires ValidPlan(steps)
    ensures forall i :: 0 <= i < |steps| ==> HasArguments(steps[i])
    ensures r.Ok? ==> RewritesTo(steps, intent, request, r.value) && IsRewritten(steps, request, r.value)
    ensures r.Err? ==> RewriteFails(steps, intent, request, r.error)
    ensures r.Ok? ==> (ValidPlan(r.value) <==>
              forall i :: 0 <= i < |steps| ==> !StaysSpoilt(steps, steps[i], intent, request))
    ensures r.Ok? ==> forall clock: Clock :: PlanVerdict(clock, r.value) == Valid ==> ValidPlan(r.value)
  {
    assert forall i :: 0 <= i < |steps| ==> FieldsValid(steps[i]);
    var constrained := ConstrainSteps(steps, intent, request);
    if constrained.Err? {
      return constrained;
    }
    r := RouteContextualRetrieval(constrained.value, request);
    if r.Ok? {
      RewrittenFacts(steps, intent, request, r.value);
    } else {
      CrashFails(steps, intent, request, constrained.value);
    }
  }

  lemma {:induction false} CrashFails(steps: seq<Step>, intent: Intent, request: Request, copies: seq<Step>)
    requires forall i :: 0 <= i < |steps| ==> HasArguments(steps[i])
    requires IsConstrained(steps, intent, request, copies) && RoutingCrashes(copies, request)
    ensures RewriteFails(steps, intent, request, Crash)
  {
  }

  /** What one reply of the provider comes to; a reply may not even have valid fields. */
  ghost predicate Yields(clock: Clock, reply: Option<seq<Step>>, intent: Intent, request: Request,
                         r: Result<seq<Step>, Fault>)
    requires reply.Some? ==> AllFieldsValid(reply.value)
  {
    if reply.None? || !GraphInvariant(reply.value) then r == Err(BadValue)
    else
      assert forall i :: 0 <= i < |reply.value| ==> FieldsValid(reply.value[i]);
      match r
      case Ok(plan) => RewritesTo(reply.value, intent, request, plan) && PlanVerdict(clock, plan) == Valid
      case Err(fault) =>
        || RewriteFails(reply.value, intent, request, fault)
        || exists plan :: RewritesTo(reply.value, intent, request, plan) && PlanVerdict(clock, plan) ==
             if fault == BadValue then ValueError else TypeError
  }

  /** A plan that comes out is valid, accepted and a rewrite of the reply. */
  lemma {:induction false} YieldedPlanIsValid(clock: Clock, reply: Option<seq<Step>>, intent: Intent, request: Request,
                                              plan: seq<Step>)
    requires reply.Some? ==> AllFieldsValid(reply.value)
    requires Yields(clock, reply, intent, request, Ok(plan))
    ensures reply.Some? && IsRewritten(reply.value, request, plan)
    ensures ValidPlan(plan) && PlanVerdict(clock, plan) == Valid
  {
    RewrittenFacts(reply.value, intent, request, plan);
  }

  /**
   Planning from the provider's replies: a second reply is asked for exactly after a ValueError,
   and what it comes to is then the outcome. Every plan that comes out is valid.
   */
  method CreatePlan(clock: Clock, replies: seq<Option<seq<Step>>>, intent: Intent, request: Request)
    returns (r: Result<seq<Step>, Fault>, asked: nat)
    requires |replies| == 2
    requires forall i :: 0 <= i < |replies| && replies[i].Some? ==> AllFieldsValid(replies[i].value)
    ensures asked in {1, 2}
    ensures asked == 1 ==> r != Err(BadValue) && Yields(clock, replies[0], intent, request, r)
    ensures asked == 2 ==>
              Yields(clock, replies[0], intent, request, Err(BadValue)) && Yields(clock, replies[1], intent, request, r)
    ensures r.Ok? ==> ValidPlan(r.value)
  {
    r := PlanFromReply(clock, replies[0], intent, request);
    if r != Err(BadValue) {
      return r, 1;
    }
    r := PlanFromReply(clock, replies[1], intent, request);
    return r, 2;
  }

  /** One attempt at a plan. */
  method PlanFromReply(clock: Clock, reply: Option<seq<Step>>, intent: Intent, request: Request)
    returns (r: Result<seq<Step>, Fault>)
    requires reply.Some? ==> AllFieldsValid(reply.value)
    ensures Yields(clock, reply, intent, request, r)
    ensures r.Ok? ==> ValidPlan(r.value)
  {
    if reply.None? {
      return Err(BadValue);
    }
    var defect := ValidateGraph(reply.value);
    if defect.Some? {
      return Err(BadValue);
    }
    r := ApplyIntentConstraints(reply.value, intent, request);
    if r.Ok? {
      match PlanVerdict(clock, r.value)
      case Valid =>
      case ValueError => return Err(BadValue);
      case TypeError => return Err(Crash);
    }
  }
}
