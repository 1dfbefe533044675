/**
 What routing makes of a plan, step by step, stated without the routing functions: which
 steps it replaces, what the searches in their place look for, and which it adds.
 */
module RoutedPlans {
  import opened Text
  import opened Json
  import opened References
  import opened Substitution
  import opened Contracts
  import opened Operations
  import opened Planner
  import opened Routing

  predicate SearchesCalendar(s: Step) {
    s.service == Calendar && s.operation == "search_events"
  }

  /** A search of the user's own mail or files, with the service's name in an index search. */
  predicate SearchesNatively(s: Step, name: string) {
    || (s.service == Gmail && s.operation == "search_emails" && name == "gmail")
    || (s.service == Drive && s.operation == "search_files" && name == "google_drive")
  }

  /** `id` is a calendar search of the plan. */
  ghost predicate IsCalendarStep(steps: seq<Step>, id: string) {
    exists s :: s in steps && s.id == id && SearchesCalendar(s)
  }

  /** `id` is the first of the dependencies that is a calendar search. */
  ghost predicate IsFirstCalendarStep(steps: seq<Step>, dependencies: seq<string>, id: string) {
    exists k ::
      && 0 <= k < |dependencies| && dependencies[k] == id && IsCalendarStep(steps, id)
      && forall j :: 0 <= j < k ==> !IsCalendarStep(steps, dependencies[j])
  }

  /** The value refers to the first event in the result of a step, whatever that result holds. */
  ghost predicate RefersToFirstEvent(v: Value, id: string) {
    forall digits: Digits, data: map<string, Value>, r: Value {:trigger Substitutes(digits, v, data, r)} ::
      Substitutes(digits, v, data, r) <==> id in data && LeadsTo(digits, data[id], [Str("events"), Int(0)], r)
  }

  /** A search of the index of one service for five results about the first event of a calendar search. */
  ghost predicate SearchesAbout(s: Step, id: string, name: string) {
    && s.service == Workspace && s.operation == "workspace_search" && s.arguments.Obj?
    && (exists query :: Lookup(s.arguments.fields, "query") == Some(query) && RefersToFirstEvent(query, id))
    && Lookup(s.arguments.fields, "services") == Some(Arr([Str(name)]))
    && Lookup(s.arguments.fields, "top_k") == Some(Int(5))
    && forall k :: Has(s.arguments.fields, k) ==> k == "query" || k == "services" || k == "top_k"
  }

  // ---------- the searches that are put in ----------

  lemma {:induction false} ReferenceKeys(id: string)
    ensures var fields := FirstEvent(id).fields;
            && Lookup(fields, "$step") == Some(Str(id))
            && Lookup(fields, "path") == Some(Arr([Str("events"), Int(0)]))
  {
    var fields := FirstEvent(id).fields;
    assert |"$step"| != |"path"|;
    assert fields[1..][0] == fields[1];
    assert Lookup(fields, "path") == Lookup(fields[1..], "path");
  }

  lemma {:induction false} FirstEventRefers(id: string)
    ensures RefersToFirstEvent(FirstEvent(id), id)
  {
    ReferenceKeys(id);
    var v, path := FirstEvent(id), [Str("events"), Int(0)];
    forall digits: Digits, data: map<string, Value>, r: Value
      ensures Substitutes(digits, v, data, r) <==> id in data && LeadsTo(digits, data[id], path, r)
    {
      assert Substitutes(digits, v, data, r) <==> RefersTo(digits, v.fields, data, r);
      assert HasPath(v.fields, path);
    }
  }

  lemma {:induction false} EventSearchKeys(id: string, service: Service)
    ensures var fields := EventSearch(id, service);
            && Lookup(fields, "query") == Some(FirstEvent(id))
            && Lookup(fields, "services") == Some(Arr([Str(ServiceName(service))]))
            && Lookup(fields, "top_k") == Some(Int(5))
            && forall k :: Has(fields, k) ==> k == "query" || k == "services" || k == "top_k"
  {
    var fields := EventSearch(id, service);
    assert |"services"| != |"query"| && |"services"| != |"top_k"| && "query"[0] != "top_k"[0];
    assert fields[1..][0] == fields[1] && fields[1..][1..][0] == fields[2] && fields[1..][1..][1..] == [];
    assert Lookup(fields, "services") == Lookup(fields[1..], "services");
    assert Lookup(fields, "top_k") == Lookup(fields[1..], "top_k") == Lookup(fields[1..][1..], "top_k");
  }

  lemma {:induction false} EventSearchIsAbout(s: Step, id: string, service: Service)
    requires s.service == Workspace && s.operation == "workspace_search" && s.arguments == Obj(EventSearch(id, service))
    ensures SearchesAbout(s, id, ServiceName(service))
  {
    EventSearchKeys(id, service);
    FirstEventRefers(id);
  }

  // ---------- the steps of a routed plan ----------

  lemma {:induction false} CalendarStepsAreListed(steps: seq<Step>, id: string)
    ensures id in CalendarIds(steps) <==> IsCalendarStep(steps, id)
  {
    forall i | 0 <= i < |steps| && steps[i].id == id && IsCalendarSearch(steps[i]) ensures IsCalendarStep(steps, id) {
      assert steps[i] in steps;
    }
    forall s | s in steps && s.id == id && SearchesCalendar(s) ensures id in CalendarIds(steps) {
      var i :| 0 <= i < |steps| && steps[i] == s;
      assert IsCalendarSearch(steps[i]);
    }
  }

  lemma {:induction false} NativeMeans(s: Step)
    ensures IsNativeSearch(s) <==> exists name :: SearchesNatively(s, name)
    ensures IsNativeSearch(s) ==> SearchesNatively(s, ServiceName(s.service))
  {
    assert IsNativeSearch(s) ==> SearchesNatively(s, ServiceName(s.service));
  }

  lemma {:induction false} FirstInIsFirst(steps: seq<Step>, dependencies: seq<string>)
    ensures var found := FirstIn(dependencies, CalendarIds(steps));
            && (found.Some? ==> IsFirstCalendarStep(steps, dependencies, found.value))
            && (found.None? <==> forall d :: d in dependencies ==> !IsCalendarStep(steps, d))
  {
    forall d ensures d in CalendarIds(steps) <==> IsCalendarStep(steps, d) {
      CalendarStepsAreListed(steps, d);
    }
    if dependencies != [] {
      assert forall d :: d in dependencies <==> d == dependencies[0] || d in dependencies[1..];
      FirstInIsFirst(steps, dependencies[1..]);
      var found := FirstIn(dependencies, CalendarIds(steps));
      if dependencies[0] in CalendarIds(steps) {
        assert IsFirstCalendarStep(steps, dependencies, dependencies[0]);
      } else if found.Some? {
        var k :| 0 <= k < |dependencies[1..]| && dependencies[1..][k] == found.value
                 && forall j :: 0 <= j < k ==> !IsCalendarStep(steps, dependencies[1..][j]);
        forall j | 0 <= j < k + 1 ensures !IsCalendarStep(steps, dependencies[j]) {
          assert j > 0 ==> dependencies[1..][j - 1] == dependencies[j];
        }
        assert dependencies[k + 1] == found.value;
      }
    }
  }

  /** The routing of a step: either a search about the event that it waited for, or the step as it was. */
  ghost predicate IsRoutedStep(steps: seq<Step>, s: Step, r: Step) {
    if (exists name :: SearchesNatively(s, name)) && exists d :: d in s.dependsOn && IsCalendarStep(steps, d) then
      && r.id == s.id && r.dependsOn == s.dependsOn
      && exists d, name ::
           IsFirstCalendarStep(steps, s.dependsOn, d) && SearchesNatively(s, name) && SearchesAbout(r, d, name)
    else r == s
  }

  /**
   On a contextual query over a plan with a calendar search, every native search that depends on
   one becomes a search of its own service's index about the first event of the first such
   dependency; every other step stays as it is.
   */
  lemma {:induction false} RoutedStepsSearchTheirService(steps: seq<Step>, request: Request, r: seq<Step>, i: nat)
    requires IsRouted(steps, request, r) && i < |steps|
    ensures i < |r|
    ensures if request.contextual then IsRoutedStep(steps, steps[i], r[i]) else r[i] == steps[i]
  {
    var calendar, s := CalendarIds(steps), steps[i];
    NativeMeans(s);
    FirstInIsFirst(steps, s.dependsOn);
    if Applies(steps, request) {
      RoutedSteps(steps, request, r, i);
      var found := FirstIn(s.dependsOn, calendar);
      if IsNativeSearch(s) && found.Some? {
        EventSearchIsAbout(r[i], found.value, s.service);
        assert IsCalendarStep(steps, found.value);
      }
    } else if request.contextual {
      forall d | d in s.dependsOn ensures !IsCalendarStep(steps, d) {
        CalendarStepsAreListed(steps, d);
      }
    }
  }

  /** `id` is the first calendar search of the plan. */
  ghost predicate IsFirstSearch(steps: seq<Step>, id: string) {
    exists k ::
      && 0 <= k < |steps| && steps[k].id == id && SearchesCalendar(steps[k])
      && forall j :: 0 <= j < k ==> !SearchesCalendar(steps[j])
  }

  lemma {:induction false} FirstIdIsFirstSearch(steps: seq<Step>)
    requires CalendarIds(steps) != []
    ensures IsFirstSearch(steps, CalendarIds(steps)[0])
  {
    var front, last := steps[..|steps| - 1], steps[|steps| - 1];
    if CalendarIds(front) != [] {
      FirstIdIsFirstSearch(front);
      var k :| 0 <= k < |front| && front[k].id == CalendarIds(front)[0] && SearchesCalendar(front[k])
               && forall j :: 0 <= j < k ==> !SearchesCalendar(front[j]);
      assert steps[k] == front[k] && forall j :: 0 <= j < k ==> steps[j] == front[j];
    } else {
      forall j | 0 <= j < |front| ensures !SearchesCalendar(front[j]) {
        assert SearchesCalendar(front[j]) ==> front[j].id in CalendarIds(front);
      }
      assert forall j :: 0 <= j < |front| ==> steps[j] == front[j];
    }
  }

  /** An index search lists this service. */
  ghost predicate ListsService(s: Step, name: string) {
    && s.service == Workspace && s.operation == "workspace_search" && s.arguments.Obj?
    && Has(s.arguments.fields, "services")
    && match Lookup(s.arguments.fields, "services").value
       case Arr(items) => Str(name) in items
       case Obj(fields) => Has(fields, name)
       case Str(text) => |name| == 1 && name[0] in text
       case _ => false
  }

  lemma {:induction false} SearchedMeansListed(s: Step, name: string)
    requires SearchedServices(s).Some?
    ensures name in SearchedServices(s).value <==> ListsService(s, name)
  {
    if IsIndexSearch(s) && HasArguments(s) && Has(s.arguments.fields, "services") {
      var v := Lookup(s.arguments.fields, "services").value;
      var items := Iterated(v).value;
      assert name in SearchedServices(s).value <==> Str(name) in items by {
        if Str(name) in items {
          var i :| 0 <= i < |items| && items[i] == Str(name);
        }
      }
      match v
      case Arr(listed) =>
      case Obj(fields) =>
        if Has(fields, name) {
          var i :| 0 <= i < |fields| && fields[i].key == name;
          assert items[i] == Str(name);
        }
        if Str(name) in items {
          var i :| 0 <= i < |items| && items[i] == Str(name);
          assert fields[i].key == name;
        }
      case Str(text) =>
        if |name| == 1 && name[0] in text {
          var i :| 0 <= i < |text| && text[i] == name[0];
          assert items[i] == Str(name);
        }
        if Str(name) in items {
          var i :| 0 <= i < |items| && items[i] == Str(name);
          assert name == [text[i]];
        }
      case _ =>
    }
  }

  /** Mail or files, if the query asks for them. */
  predicate IsAskedFor(request: Request, name: string) {
    || (name == "gmail" && Gmail in request.contextServices)
    || (name == "google_drive" && Drive in request.contextServices)
  }

  /** A service the query asks for that no index search of the plan lists yet. */
  ghost predicate IsLacking(steps: seq<Step>, request: Request, name: string) {
    IsAskedFor(request, name) && forall s :: s in steps ==> !ListsService(s, name)
  }

  /** A new search of the index, under a fresh id that tells its service, waiting for the calendar search. */
  ghost predicate IsAdded(r: seq<Step>, at: nat, name: string, calendar: string)
    requires at < |r|
  {
    && SearchesAbout(r[at], calendar, name) && r[at].dependsOn == [calendar]
    && IsFreshId("workspace_" + name, IdSet(r[..at]), r[at].id)
  }

  /** One new search for each service asked for and lacking, mail before files, stands behind the routed steps. */
  ghost predicate AddsLacking(routed: seq<Step>, request: Request, r: seq<Step>, names: seq<string>, calendar: string) {
    && |r| == |routed| + |names|
    && (forall name :: name in names <==> IsLacking(routed, request, name))
    && names in {[], ["gmail"], ["google_drive"], ["gmail", "google_drive"]}
    && forall j :: 0 <= j < |names| ==> IsAdded(r, |routed| + j, names[j], calendar)
  }

  /** They are about the first event of the plan's first calendar search; without one the plan stays as it is. */
  lemma {:induction false} AddedStepsSearchLackingServices(steps: seq<Step>, request: Request, r: seq<Step>)
    requires IsRouted(steps, request, r) && |steps| <= |r|
    ensures if request.contextual && exists s :: s in steps && SearchesCalendar(s)
            then exists names, calendar ::
              IsFirstSearch(steps, calendar) && AddsLacking(r[..|steps|], request, r, names, calendar)
            else r == steps
  {
    HasCalendarSearch(steps);
    if Applies(steps, request) {
      FirstIdIsFirstSearch(steps);
      var names := LackingAreAdded(steps, request, r);
    }
  }

  lemma {:induction false} HasCalendarSearch(steps: seq<Step>)
    ensures CalendarIds(steps) != [] <==> exists s :: s in steps && SearchesCalendar(s)
  {
    if CalendarIds(steps) != [] {
      assert CalendarIds(steps)[0] in CalendarIds(steps);
      CalendarStepsAreListed(steps, CalendarIds(steps)[0]);
    }
    forall s | s in steps && SearchesCalendar(s) ensures CalendarIds(steps) != [] {
      CalendarStepsAreListed(steps, s.id);
    }
  }

  function NamesOf(services: seq<Service>): (names: seq<string>)
    ensures |names| == |services| && forall i :: 0 <= i < |services| ==> names[i] == ServiceName(services[i])
  {
    seq(|services|, i requires 0 <= i < |services| => ServiceName(services[i]))
  }

  lemma {:induction false} LackingAreAdded(steps: seq<Step>, request: Request, r: seq<Step>)
    returns (names: seq<string>)
    requires Applies(steps, request) && IsRouted(steps, request, r) && |steps| <= |r|
    ensures AddsLacking(r[..|steps|], request, r, names, CalendarIds(steps)[0])
  {
    var routed := RouteAll(steps, CalendarIds(steps));
    var missing := Missing(request.contextServices, PresentServices(routed).value);
    names := NamesOf(missing);
    assert r[..|steps|] == routed;
    MissingAreAdded(routed, request, missing, CalendarIds(steps)[0], r);
  }

  lemma {:induction false} MissingAreAdded(routed: seq<Step>, request: Request, missing: seq<Service>,
                                           calendar: string, r: seq<Step>)
    requires AddsSearches(routed, missing, calendar, r) && PresentServices(routed).Some?
    requires missing == Missing(request.contextServices, PresentServices(routed).value)
    ensures AddsLacking(routed, request, r, NamesOf(missing), calendar)
  {
    AddedAreSearches(routed, missing, calendar, r);
    MissingAreLacking(routed, request, missing);
    NamesAreSorted(request, PresentServices(routed).value, missing, NamesOf(missing));
  }

  lemma {:induction false} AddedAreSearches(routed: seq<Step>, missing: seq<Service>, calendar: string, r: seq<Step>)
    requires AddsSearches(routed, missing, calendar, r)
    ensures forall j :: 0 <= j < |missing| ==> IsAdded(r, |routed| + j, NamesOf(missing)[j], calendar)
  {
    forall j | 0 <= j < |missing| ensures IsAdded(r, |routed| + j, NamesOf(missing)[j], calendar) {
      assert IsNewSearch(r, |routed| + j, missing[j], calendar);
      EventSearchIsAbout(r[|routed| + j], calendar, missing[j]);
    }
  }

  lemma {:induction false} MissingAreLacking(routed: seq<Step>, request: Request, missing: seq<Service>)
    requires PresentServices(routed).Some?
    requires missing == Missing(request.contextServices, PresentServices(routed).value)
    ensures forall name :: name in NamesOf(missing) <==> IsLacking(routed, request, name)
  {
    forall name ensures name in NamesOf(missing) <==> IsLacking(routed, request, name) {
      PresentMeansListed(routed, name);
      MissingIsNamed(request, PresentServices(routed).value, name);
    }
  }

  lemma {:induction false} MissingIsNamed(request: Request, present: set<string>, name: string)
    ensures name in NamesOf(Missing(request.contextServices, present)) <==>
            IsAskedFor(request, name) && name !in present
  {
    var missing := Missing(request.contextServices, present);
    NameIsListed(missing, name);
    assert Gmail in missing <==> Gmail in request.contextServices && "gmail" !in present;
    assert Drive in missing <==> Drive in request.contextServices && "google_drive" !in present;
    assert forall s :: s in missing ==> s == Gmail || s == Drive;
  }

  lemma {:induction false} NameIsListed(services: seq<Service>, name: string)
    ensures name in NamesOf(services) <==> exists s :: s in services && ServiceName(s) == name
  {
    var names := NamesOf(services);
    if name in names {
      var i :| 0 <= i < |names| && names[i] == name;
      assert services[i] in services;
    }
    if s :| s in services && ServiceName(s) == name {
      var i :| 0 <= i < |services| && services[i] == s;
      assert names[i] == name;
    }
  }

  lemma {:induction false} NamesAreSorted(request: Request, present: set<string>, missing: seq<Service>,
                                          names: seq<string>)
    requires missing == Missing(request.contextServices, present)
    requires |names| == |missing| && forall i :: 0 <= i < |names| ==> names[i] == ServiceName(missing[i])
    ensures names in {[], ["gmail"], ["google_drive"], ["gmail", "google_drive"]}
  {
    if |missing| == 0 {
      assert names == [];
    } else if missing == [Gmail] {
      assert names == ["gmail"];
    } else if missing == [Drive] {
      assert names == ["google_drive"];
    } else {
      assert missing == [Gmail, Drive];
      assert names == ["gmail", "google_drive"];
    }
  }

  lemma {:induction false} PresentMeansListed(routed: seq<Step>, name: string)
    requires PresentServices(routed).Some?
    ensures name in PresentServices(routed).value <==> exists s :: s in routed && ListsService(s, name)
  {
    forall i | 0 <= i < |routed|
      ensures SearchedServices(routed[i]).Some?
                && (name in SearchedServices(routed[i]).value <==> ListsService(routed[i], name))
    {
      SearchedMeansListed(routed[i], name);
    }
    if s :| s in routed && ListsService(s, name) {
      var i :| 0 <= i < |routed| && routed[i] == s;
      assert name in SearchedServices(routed[i]).value;
    }
  }

  // ---------- plans that cannot be routed ----------

  /** An index search whose services are neither a list nor an object nor a string. */
  predicate ListsNothing(s: Step) {
    && s.service == Workspace && s.operation == "workspace_search" && s.arguments.Obj?
    && var services := Lookup(s.arguments.fields, "services");
    && services.Some? && !services.value.Arr? && !services.value.Obj? && !services.value.Str?
  }

  lemma {:induction false} UnlistedMeans(s: Step)
    ensures SearchedServices(s).None? <==> ListsNothing(s)
  {
  }

  lemma {:induction false} RoutedUnlistedMeans(s: Step, calendar: seq<string>)
    ensures SearchedServices(RouteStep(s, calendar)).None? <==> ListsNothing(s)
  {
    UnlistedMeans(s);
    if RouteStep(s, calendar) != s {
      var d := FirstIn(s.dependsOn, calendar).value;
      EventSearchKeys(d, s.service);
    }
  }

  /** Routing fails exactly on a contextual query over a plan with a calendar search and such an index search. */
  lemma {:induction false} RoutingFailsIff(steps: seq<Step>, request: Request)
    ensures RoutingCrashes(steps, request) <==>
            && request.contextual && (exists s :: s in steps && SearchesCalendar(s))
            && exists s :: s in steps && ListsNothing(s)
  {
    HasCalendarSearch(steps);
    var calendar := CalendarIds(steps);
    forall i | 0 <= i < |steps|
      ensures SearchedServices(RouteAll(steps, calendar)[i]).None? <==> ListsNothing(steps[i])
    {
      RoutedUnlistedMeans(steps[i], calendar);
    }
    assert forall i :: 0 <= i < |steps| ==> steps[i] in steps;
  }
}
