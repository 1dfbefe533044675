/**
 The intent's constraints on each step's arguments in a validated plan. The graph validator
 is not run again, so that the result is still a valid plan rests on the constraints alone.
 */
module Planner {
  import opened Text
  import opened Json
  import opened References
  import opened Contracts
  import opened Operations

  /** How the rewrite fails: a ValueError, after which the planner asks once more, or another exception. */
  datatype Fault = BadValue | Crash

  datatype Intent = Intent(requiredServices: seq<Service>, entities: seq<Field>)

  /** The rest of a request. What is read off its text by patterns, and its clock readings, are given. */
  datatype Request = Request(
    query: string,
    timezone: string,
    duration: int,
    now: string,
    asksForMeet: bool,
    asksForNextEvent: bool,
    contextual: bool,
    contextServices: set<Service>,
    endAfter: (string, int) -> Result<string, Fault>,
    later: (string, string) -> Result<string, Fault>)

  // ---------- argument constraints ----------

  /** `entities.get(first) or entities.get(second)` */
  function Entity(intent: Intent, first: string, second: string): Value {
    Or(GetOr(intent.entities, first, Null), GetOr(intent.entities, second, Null))
  }

  /** The date range the intent carries, when both of its ends are strings. */
  function DateRange(intent: Intent): Option<(string, string)> {
    var named := GetOr(intent.entities, "date_range", Null);
    var v := if named.Obj? then named else GetOr(intent.entities, "time_range", Null);
    if !v.Obj? then None
    else
      var start, end := GetOr(v.fields, "start", Null), GetOr(v.fields, "end", Null);
      if start.Str? && end.Str? then Some((start.s, end.s)) else None
  }

  /** The object names an end of a range under this key. */
  predicate HasEnd(range: Value, key: string, timestamp: string) {
    range.Obj? && Lookup(range.fields, key) == Some(Str(timestamp))
  }

  /** The intent's range, which is its `date_range`, or its `time_range` if the other is no object. */
  predicate Spans(entities: seq<Field>, start: string, end: string) {
    var named := Lookup(entities, "date_range");
    var range := if named.Some? && named.value.Obj? then named else Lookup(entities, "time_range");
    range.Some? && HasEnd(range.value, "start", start) && HasEnd(range.value, "end", end)
  }

  lemma {:induction false} DateRangeMeans(intent: Intent, start: string, end: string)
    ensures DateRange(intent) == Some((start, end)) <==> Spans(intent.entities, start, end)
  {
  }

  function DayPart(timestamp: string): (r: string)
    ensures r <= timestamp && 'T' !in r
  {
    if timestamp == "" || timestamp[0] == 'T' then "" else [timestamp[0]] + DayPart(timestamp[1..])
  }

  const ALIASES: seq<string> :=
    ["date_range", "time_range", "start_date", "end_date", "time_minimum", "time_maximum"]

  datatype Kind = CreateEvent | SearchEvents | SearchEmails | SearchFiles | SearchWorkspace | Unconstrained

  function KindOf(service: Service, operation: string): Kind {
    match service
    case Calendar =>
      if operation == "create_event" then CreateEvent
      else if operation == "search_events" then SearchEvents
      else Unconstrained
    case Gmail => if operation == "search_emails" then SearchEmails else Unconstrained
    case Drive => if operation == "search_files" then SearchFiles else Unconstrained
    case Workspace => if operation == "workspace_search" then SearchWorkspace else Unconstrained
  }

  /** The constraints change the arguments of such a step. */
  predicate Constrains(kind: Kind, intent: Intent, request: Request): (r: bool)
    ensures r ==> !kind.Unconstrained?
  {
    match kind
    case CreateEvent => true
    case SearchWorkspace => true
    case SearchEvents => request.asksForNextEvent || DateRange(intent).Some?
    case SearchEmails => DateRange(intent).Some?
    case SearchFiles => DateRange(intent).Some?
    case Unconstrained => false
  }

  /** The argument that a constrained step is sure to have afterwards. */
  function SureKey(kind: Kind): (key: string)
    ensures key !in ALIASES
    ensures !kind.Unconstrained? ==> key in SETTABLE
  {
    match kind
    case CreateEvent => "timezone"
    case SearchWorkspace => "query"
    case SearchEvents => "time_min"
    case SearchEmails => "date_from"
    case SearchFiles => "modified_after"
    case Unconstrained => ""
  }

  const SETTABLE: set<string> := {
    "start", "end", "attendees", "timezone", "create_google_meet", "query", "services",
    "time_min", "time_max", "max_results", "date_from", "date_to", "modified_after", "modified_before"}

  predicate ReferenceFree(v: Value) {
    FindStepReferences(v) == Some([])
  }

  /** Every field of `b` is one of `a` or free of references, and settable arguments aside `b` adds and changes none. */
  ghost predicate Rewrites(a: seq<Field>, b: seq<Field>) {
    && (forall i :: 0 <= i < |b| ==> b[i] in a || ReferenceFree(b[i].value))
    && (forall i :: 0 <= i < |b| ==> b[i] in a || b[i].key in SETTABLE)
    && (forall k :: Untouched(k) ==> Lookup(b, k) == Lookup(a, k))
  }

  lemma {:induction false} RewritesCompose(a: seq<Field>, b: seq<Field>, c: seq<Field>)
    requires Rewrites(a, b) && Rewrites(b, c)
    ensures Rewrites(a, c)
  {
    forall i | 0 <= i < |c| && c[i] !in a ensures ReferenceFree(c[i].value) && c[i].key in SETTABLE {
      if c[i] in b {
        var j :| 0 <= j < |b| && b[j] == c[i];
      }
    }
  }

  function Set(fields: seq<Field>, key: string, value: Value): (r: seq<Field>)
    requires key in SETTABLE && ReferenceFree(value)
    ensures Rewrites(fields, r) && Lookup(r, key) == Some(value)
    ensures forall k :: k != key ==> Lookup(r, k) == Lookup(fields, k)
  {
    Put(fields, key, value)
  }

  lemma {:induction false} StringsAreReferenceFree(items: seq<Value>)
    requires forall i :: 0 <= i < |items| ==> items[i].Str?
    ensures ReferenceFree(Arr(items))
  {
    if items != [] {
      StringsAreReferenceFree(items[1..]);
      assert FindStepReferences(items[0]) == Some([]) && FindInItems(items[1..]) == Some([]);
      var none: seq<string> := [];
      assert none + none == none;
    }
  }

  /** A duration the intent may carry: a positive integer, and otherwise the default. */
  function Duration(intent: Intent, request: Request): (r: int)
    ensures request.duration >= 1 ==> r >= 1
  {
    var v := GetOr(intent.entities, "duration_minutes", Null);
    if v.Int? && v.n >= 1 then v.n else request.duration
  }

  function EndAfter(request: Request, start: Value, duration: int): Result<string, Fault> {
    if start.Str? then request.endAfter(start.s, duration) else Err(BadValue)
  }

  /** When a new event starts: the intent's own time goes before that of the plan. */
  function EventStart(arguments: seq<Field>, intent: Intent): Option<Value> {
    var start := Entity(intent, "start_time", "start");
    if start.Str? then Some(start) else Lookup(arguments, "start")
  }

  /** When it ends: a given end, or one computed from the intent's start, or else from the plan's. */
  function EventEnd(arguments: seq<Field>, intent: Intent, request: Request): Result<Option<Value>, Fault> {
    var start, end := Entity(intent, "start_time", "start"), Entity(intent, "end_time", "end");
    if start.Str? && end.Str? then Ok(Some(end))
    else if start.Str? then Computed(EndAfter(request, start, Duration(intent, request)))
    else if Has(arguments, "start") && !Has(arguments, "end") then
      Computed(EndAfter(request, Lookup(arguments, "start").value, request.duration))
    else Ok(Lookup(arguments, "end"))
  }

  function Computed(end: Result<string, Fault>): Result<Option<Value>, Fault> {
    if end.Ok? then Ok(Some(Str(end.value))) else Err(end.error)
  }

  /** Sets start and end of a new event. */
  method ConstrainTimes(arguments: seq<Field>, intent: Intent, request: Request) returns (r: Result<seq<Field>, Fault>)
    ensures r.Ok? ==> Rewrites(arguments, r.value)
    ensures r.Ok? <==> EventEnd(arguments, intent, request).Ok?
    ensures r.Err? ==> r.error == EventEnd(arguments, intent, request).error
    ensures r.Ok? ==> Lookup(r.value, "start") == EventStart(arguments, intent)
    ensures r.Ok? ==> Lookup(r.value, "end") == EventEnd(arguments, intent, request).value
    ensures r.Ok? ==> forall k :: k !in {"start", "end"} ==> Lookup(r.value, k) == Lookup(arguments, k)
  {
    var canonical := arguments;
    var start, end := Entity(intent, "start_time", "start"), Entity(intent, "end_time", "end");
    if start.Str? {
      canonical := Set(canonical, "start", start);
      if end.Str? {
        RewritesCompose(arguments, canonical, Set(canonical, "end", end));
        canonical := Set(canonical, "end", end);
      } else {
        var computed := EndAfter(request, start, Duration(intent, request));
        if computed.Err? {
          return Err(computed.error);
        }
        RewritesCompose(arguments, canonical, Set(canonical, "end", Str(computed.value)));
        canonical := Set(canonical, "end", Str(computed.value));
      }
    } else if Has(canonical, "start") && !Has(canonical, "end") {
      var computed := EndAfter(request, Lookup(canonical, "start").value, request.duration);
      if computed.Err? {
        return Err(computed.error);
      }
      canonical := Set(canonical, "end", Str(computed.value));
    }
    return Ok(canonical);
  }

  /** Attendees named by the intent, if it names them properly. */
  function Attendees(intent: Intent): (r: Option<Value>)
    ensures r.Some? ==> ReferenceFree(r.value) && r.value.Arr?
  {
    var named, email := GetOr(intent.entities, "attendees", Null), GetOr(intent.entities, "attendee_email", Null);
    if IsStringList(named) then
      StringsAreReferenceFree(named.items);
      Some(named)
    else if email.Str? then
      StringsAreReferenceFree([email]);
      Some(Arr([email]))
    else None
  }

  /** The arguments of a new event under the constraints. */
  function EventArgument(arguments: seq<Field>, intent: Intent, request: Request, k: string): Option<Value>
    requires EventEnd(arguments, intent, request).Ok?
  {
    if k == "timezone" then Some(Str(request.timezone))
    else if k == "create_google_meet" then Some(Bool(request.asksForMeet))
    else if k == "attendees" && Attendees(intent).Some? then Attendees(intent)
    else if k == "start" then EventStart(arguments, intent)
    else if k == "end" then EventEnd(arguments, intent, request).value
    else Lookup(arguments, k)
  }

  /** A copy of the timed arguments with attendees, time zone and meeting link set. */
  ghost predicate IsCompleted(timed: seq<Field>, intent: Intent, request: Request, canonical: seq<Field>) {
    && Lookup(canonical, "create_google_meet") == Some(Bool(request.asksForMeet))
    && Lookup(canonical, "timezone") == Some(Str(request.timezone))
    && (Attendees(intent).Some? ==> Lookup(canonical, "attendees") == Attendees(intent))
    && forall k :: k != "create_google_meet" && k != "timezone" && !(k == "attendees" && Attendees(intent).Some?) ==>
         Lookup(canonical, k) == Lookup(timed, k)
  }

  lemma {:induction false} CompletedArgument(arguments: seq<Field>, intent: Intent, request: Request,
                                             timed: seq<Field>, canonical: seq<Field>, k: string)
    requires EventEnd(arguments, intent, request).Ok? && IsCompleted(timed, intent, request, canonical)
    requires Lookup(timed, "start") == EventStart(arguments, intent)
    requires Lookup(timed, "end") == EventEnd(arguments, intent, request).value
    requires k !in {"start", "end"} ==> Lookup(timed, k) == Lookup(arguments, k)
    ensures Lookup(canonical, k) == EventArgument(arguments, intent, request, k)
  {
  }

  method CompleteEvent(timed: seq<Field>, intent: Intent, request: Request) returns (canonical: seq<Field>)
    ensures Rewrites(timed, canonical) && IsCompleted(timed, intent, request, canonical)
  {
    canonical := timed;
    if Attendees(intent).Some? {
      canonical := Set(canonical, "attendees", Attendees(intent).value);
    }
    var zoned := Set(canonical, "timezone", Str(request.timezone));
    RewritesCompose(timed, canonical, zoned);
    canonical := Set(zoned, "create_google_meet", Bool(request.asksForMeet));
    RewritesCompose(timed, zoned, canonical);
  }

  method ConstrainEvent(arguments: seq<Field>, intent: Intent, request: Request) returns (r: Result<seq<Field>, Fault>)
    ensures r.Ok? ==> Rewrites(arguments, r.value)
    ensures r.Ok? <==> EventEnd(arguments, intent, request).Ok?
    ensures r.Err? ==> r.error == EventEnd(arguments, intent, request).error
    ensures r.Ok? ==> forall k :: Lookup(r.value, k) == EventArgument(arguments, intent, request, k)
  {
    r := ConstrainTimes(arguments, intent, request);
    if r.Err? {
      return;
    }
    var timed := r.value;
    var canonical := CompleteEvent(timed, intent, request);
    RewritesCompose(arguments, timed, canonical);
    forall k ensures Lookup(canonical, k) == EventArgument(arguments, intent, request, k) {
      CompletedArgument(arguments, intent, request, timed, canonical, k);
    }
    return Ok(canonical);
  }

  function RequestedServices(services: seq<Service>): (r: seq<Value>)
    ensures forall i :: 0 <= i < |r| ==> r[i].Str?
    ensures forall s: Service :: Str(ServiceName(s)) in r <==> s in services && s != Workspace
  {
    if services == [] then []
    else if services[0] == Workspace then RequestedServices(services[1..])
    else [Str(ServiceName(services[0]))] + RequestedServices(services[1..])
  }

  /** The arguments of a workspace search under the constraints. */
  function SearchArgument(arguments: seq<Field>, intent: Intent, request: Request, k: string): Option<Value> {
    if k == "query" && !Has(arguments, k) then Some(Str(request.query))
    else if k == "services" && !Has(arguments, k) && RequestedServices(intent.requiredServices) != [] then
      Some(Arr(RequestedServices(intent.requiredServices)))
    else Lookup(arguments, k)
  }

  /** Fills in what a workspace search lacks. */
  method ConstrainSearch(arguments: seq<Field>, intent: Intent, request: Request) returns (canonical: seq<Field>)
    ensures Rewrites(arguments, canonical)
    ensures forall k :: Lookup(canonical, k) == SearchArgument(arguments, intent, request, k)
  {
    canonical := arguments;
    if !Has(canonical, "query") {
      canonical := Set(canonical, "query", Str(request.query));
    }
    if !Has(canonical, "services") {
      var requested := RequestedServices(intent.requiredServices);
      if requested != [] {
        StringsAreReferenceFree(requested);
        RewritesCompose(arguments, canonical, Set(canonical, "services", Arr(requested)));
        canonical := Set(canonical, "services", Arr(requested));
      }
    }
  }

  /** Two settings in a row. */
  function SetBoth(fields: seq<Field>, first: string, a: Value, second: string, b: Value): (r: seq<Field>)
    requires first in SETTABLE && second in SETTABLE && first != second && ReferenceFree(a) && ReferenceFree(b)
    ensures Rewrites(fields, r) && Lookup(r, first) == Some(a) && Lookup(r, second) == Some(b)
    ensures forall k :: k != first && k != second ==> Lookup(r, k) == Lookup(fields, k)
  {
    var once := Set(fields, first, a);
    RewritesCompose(fields, once, Set(once, second, b));
    Set(once, second, b)
  }

  /** Removes keys, here the spellings of a range that the operations do not declare. */
  method DropKeys(fields: seq<Field>, keys: seq<string>) returns (canonical: seq<Field>)
    ensures forall f :: f in canonical ==> f in fields
    ensures forall k :: Lookup(canonical, k) == if k in keys then None else Lookup(fields, k)
  {
    canonical := fields;
    for i := 0 to |keys|
      invariant forall f :: f in canonical ==> f in fields
      invariant forall k :: Lookup(canonical, k) == if k in keys[..i] then None else Lookup(fields, k)
    {
      canonical := Remove(canonical, keys[i]);
      assert keys[..i + 1] == keys[..i] + [keys[i]];
    }
    assert keys[..|keys|] == keys;
  }

  /** The range argument names of a search. */
  function RangeKeys(kind: Kind): (r: (string, string))
    ensures r.0 in SETTABLE && r.1 in SETTABLE && r.0 != r.1 && r.0 !in ALIASES && r.1 !in ALIASES
    ensures !kind.CreateEvent? && !kind.Unconstrained? && !kind.SearchWorkspace? ==> r.0 == SureKey(kind)
  {
    match kind
    case SearchEvents => ("time_min", "time_max")
    case SearchFiles => ("modified_after", "modified_before")
    case _ => ("date_from", "date_to")
  }

  /** The lower bound of a search: a calendar search keeps its own when that is later. */
  function LowerBound(kind: Kind, present: Option<Value>, start: string, request: Request): Result<string, Fault> {
    if kind.SearchEmails? then Ok(DayPart(start))
    else if kind.SearchEvents? && present.Some? then
      if present.value.Str? then request.later(present.value.s, start) else Err(Crash)
    else Ok(start)
  }

  function UpperBound(kind: Kind, end: string): string {
    if kind.SearchEmails? then DayPart(end) else end
  }

  /** The bounds are set, the aliases are gone, and every other argument is as before. */
  ghost predicate HasRange(arguments: seq<Field>, kind: Kind, low: string, high: string, ranged: seq<Field>) {
    forall k :: Lookup(ranged, k) ==
      if k == RangeKeys(kind).0 then Some(Str(low))
      else if k == RangeKeys(kind).1 then Some(Str(high))
      else if k in ALIASES then None
      else Lookup(arguments, k)
  }

  /** Imposes the intent's date range on a search. */
  method ConstrainRange(arguments: seq<Field>, kind: Kind, start: string, end: string, request: Request)
    returns (r: Result<seq<Field>, Fault>)
    ensures r.Ok? ==> Rewrites(arguments, r.value)
    ensures var low := LowerBound(kind, Lookup(arguments, RangeKeys(kind).0), start, request);
            && (r.Ok? <==> low.Ok?) && (r.Err? ==> r.error == low.error)
            && (r.Ok? ==> HasRange(arguments, kind, low.value, UpperBound(kind, end), r.value))
  {
    var first, second := RangeKeys(kind).0, RangeKeys(kind).1;
    var low := LowerBound(kind, Lookup(arguments, first), start, request);
    if low.Err? {
      return Err(low.error);
    }
    var ranged := SetBoth(arguments, first, Str(low.value), second, Str(UpperBound(kind, end)));
    var canonical := DropKeys(ranged, ALIASES);
    RewritesCompose(arguments, ranged, canonical);
    return Ok(canonical);
  }

  /** The constraints other than the date range, argument by argument. */
  function DefaultArgument(kind: Kind, arguments: seq<Field>, intent: Intent, request: Request, k: string)
    : Option<Value>
    requires kind.CreateEvent? ==> EventEnd(arguments, intent, request).Ok?
  {
    if kind.CreateEvent? then EventArgument(arguments, intent, request, k)
    else if kind.SearchWorkspace? then SearchArgument(arguments, intent, request, k)
    else if kind.SearchEvents? && request.asksForNextEvent && k == "time_min" then Some(Str(request.now))
    else if kind.SearchEvents? && request.asksForNextEvent && k == "max_results" then Some(Int(1))
    else Lookup(arguments, k)
  }

  ghost predicate HasDefaults(kind: Kind, arguments: seq<Field>, intent: Intent, request: Request, fields: seq<Field>)
    requires kind.CreateEvent? ==> EventEnd(arguments, intent, request).Ok?
  {
    forall k :: Lookup(fields, k) == DefaultArgument(kind, arguments, intent, request, k)
  }

  method ConstrainDefaults(kind: Kind, arguments: seq<Field>, intent: Intent, request: Request)
    returns (r: Result<seq<Field>, Fault>)
    ensures r.Ok? ==> Rewrites(arguments, r.value)
    ensures r.Ok? <==> kind.CreateEvent? ==> EventEnd(arguments, intent, request).Ok?
    ensures r.Err? ==> r.error == EventEnd(arguments, intent, request).error
    ensures r.Ok? ==> HasDefaults(kind, arguments, intent, request, r.value)
    ensures !(kind.CreateEvent? || kind.SearchWorkspace? || (kind.SearchEvents? && request.asksForNextEvent)) ==>
              r == Ok(arguments)
  {
    match kind
    case CreateEvent =>
      r := ConstrainEvent(arguments, intent, request);
    case SearchWorkspace =>
      var canonical := ConstrainSearch(arguments, intent, request);
      return Ok(canonical);
    case SearchEvents =>
      if request.asksForNextEvent {
        return Ok(SetBoth(arguments, "time_min", Str(request.now), "max_results", Int(1)));
      }
      return Ok(arguments);
    case _ =>
      return Ok(arguments);
  }

  /** The intent's date range narrows such a search. */
  predicate Ranged(kind: Kind, intent: Intent) {
    DateRange(intent).Some? && !kind.CreateEvent? && !kind.Unconstrained?
  }

  /** Whether one step's arguments can be constrained: end and lower bound can be computed. */
  function Constrainable(kind: Kind, arguments: seq<Field>, intent: Intent, request: Request)
    : (r: Result<string, Fault>)
    ensures r.Ok? && kind.CreateEvent? ==> EventEnd(arguments, intent, request).Ok?
  {
    if kind.CreateEvent? then
      if EventEnd(arguments, intent, request).Ok? then Ok("") else Err(EventEnd(arguments, intent, request).error)
    else if Ranged(kind, intent) then
      var present := DefaultArgument(kind, arguments, intent, request, RangeKeys(kind).0);
      LowerBound(kind, present, DateRange(intent).value.0, request)
    else Ok("")
  }

  /** One step's arguments under the constraints of the intent, argument by argument. */
  function CanonicalArgument(kind: Kind, arguments: seq<Field>, intent: Intent, request: Request, k: string)
    : Option<Value>
    requires Constrainable(kind, arguments, intent, request).Ok?
  {
    if !Ranged(kind, intent) then DefaultArgument(kind, arguments, intent, request, k)
    else if k == RangeKeys(kind).0 then Some(Str(Constrainable(kind, arguments, intent, request).value))
    else if k == RangeKeys(kind).1 then Some(Str(UpperBound(kind, DateRange(intent).value.1)))
    else if k in ALIASES then None
    else DefaultArgument(kind, arguments, intent, request, k)
  }

  ghost predicate IsCanonical(kind: Kind, arguments: seq<Field>, intent: Intent, request: Request, fields: seq<Field>)
    requires Constrainable(kind, arguments, intent, request).Ok?
  {
    forall k :: Lookup(fields, k) == CanonicalArgument(kind, arguments, intent, request, k)
  }

  lemma {:induction false} RangedIsCanonical(kind: Kind, arguments: seq<Field>, intent: Intent, request: Request,
                                             defaults: seq<Field>, ranged: seq<Field>)
    requires Ranged(kind, intent) && HasDefaults(kind, arguments, intent, request, defaults)
    requires Constrainable(kind, arguments, intent, request).Ok?
    requires HasRange(defaults, kind, Constrainable(kind, arguments, intent, request).value,
                      UpperBound(kind, DateRange(intent).value.1), ranged)
    ensures IsCanonical(kind, arguments, intent, request, ranged)
  {
  }

  lemma {:induction false} DefaultsAreCanonical(kind: Kind, arguments: seq<Field>, intent: Intent, request: Request,
                                                defaults: seq<Field>)
    requires !Ranged(kind, intent) && Constrainable(kind, arguments, intent, request).Ok?
    requires HasDefaults(kind, arguments, intent, request, defaults)
    ensures IsCanonical(kind, arguments, intent, request, defaults)
  {
  }

  /** One step's arguments under the constraints of the intent. */
  method CanonicalArguments(kind: Kind, arguments: seq<Field>, intent: Intent, request: Request)
    returns (r: Result<seq<Field>, Fault>)
    ensures r.Ok? ==> Rewrites(arguments, r.value)
    ensures r.Ok? <==> Constrainable(kind, arguments, intent, request).Ok?
    ensures r.Err? ==> r.error == Constrainable(kind, arguments, intent, request).error
    ensures r.Ok? ==> IsCanonical(kind, arguments, intent, request, r.value)
    ensures r.Ok? && !Constrains(kind, intent, request) ==> r.value == arguments
  {
    r := ConstrainDefaults(kind, arguments, intent, request);
    if r.Err? || !Ranged(kind, intent) {
      if r.Ok? {
        DefaultsAreCanonical(kind, arguments, intent, request, r.value);
      }
      return;
    }
    var range, defaults := DateRange(intent).value, r.value;
    r := ConstrainRange(defaults, kind, range.0, range.1, request);
    if r.Ok? {
      RewritesCompose(arguments, defaults, r.value);
      RangedIsCanonical(kind, arguments, intent, request, defaults, r.value);
    }
  }

  /** A step that a constraint applies to has its sure key afterwards. */
  lemma {:induction false} SureKeyIsSet(kind: Kind, arguments: seq<Field>, intent: Intent, request: Request,
                                        fields: seq<Field>)
    requires Constrains(kind, intent, request) && Constrainable(kind, arguments, intent, request).Ok?
    requires IsCanonical(kind, arguments, intent, request, fields)
    ensures Has(fields, SureKey(kind))
  {
    assert CanonicalArgument(kind, arguments, intent, request, SureKey(kind)).Some?;
  }

  // ---------- the constrained plan ----------

  /** The references in a value are well formed and name only the given ids. */
  predicate ValueDeclared(v: Value, ids: seq<string>) {
    var found := FindStepReferences(v);
    found.Some? && forall i :: 0 <= i < |found.value| ==> found.value[i] in ids
  }

  lemma {:induction false} FieldsAreDeclared(fields: seq<Field>, ids: seq<string>)
    ensures (FindInFields(fields).Some? && forall i :: 0 <= i < |FindInFields(fields).value| ==>
              FindInFields(fields).value[i] in ids)
            <==> forall i :: 0 <= i < |fields| ==> ValueDeclared(fields[i].value, ids)
  {
    if fields != [] {
      var rest := fields[1..];
      FieldsAreDeclared(rest, ids);
      var a, b := FindStepReferences(fields[0].value), FindInFields(rest);
      assert forall i :: 0 < i < |fields| ==> fields[i] == rest[i - 1];
      assert forall i :: 0 <= i < |rest| ==> rest[i] == fields[i + 1];
      if a.Some? && b.Some? {
        assert forall i :: 0 <= i < |a.value| ==> a.value[i] == (a.value + b.value)[i];
        assert forall i :: 0 <= i < |b.value| ==> b.value[i] == (a.value + b.value)[|a.value| + i];
      }
    }
  }

  predicate HasOnlyReferenceKeys(fields: seq<Field>) {
    forall i :: 0 <= i < |fields| ==> fields[i].key in {"$step", "path"}
  }

  /** A rewrite keeps references declared, unless the arguments are a reference themselves and get another key. */
  lemma {:induction false} RewriteKeepsDeclared(arguments: seq<Field>, canonical: seq<Field>, ids: seq<string>)
    requires Rewrites(arguments, canonical) && ValueDeclared(Obj(arguments), ids)
    ensures ValueDeclared(Obj(canonical), ids) <==> (Has(arguments, "$step") ==> HasOnlyReferenceKeys(canonical))
  {
    ReferenceKeysAreKept(arguments, canonical);
    if !Has(arguments, "$step") {
      FieldsAreDeclared(arguments, ids);
      FieldsAreDeclared(canonical, ids);
      forall i | 0 <= i < |canonical| ensures ValueDeclared(canonical[i].value, ids) {
        if canonical[i] in arguments {
          var j :| 0 <= j < |arguments| && arguments[j] == canonical[i];
          assert ValueDeclared(arguments[j].value, ids);
        }
      }
    }
  }

  predicate Untouched(key: string) {
    key !in SETTABLE && key !in ALIASES
  }

  lemma {:induction false} StepKeyIsUntouched()
    ensures Untouched("$step")
  {
  }

  lemma {:induction false} PathKeyIsUntouched()
    ensures Untouched("path")
  {
  }

  lemma {:induction false} ReferenceKeysAreKept(arguments: seq<Field>, canonical: seq<Field>)
    requires Rewrites(arguments, canonical)
    ensures Lookup(canonical, "$step") == Lookup(arguments, "$step")
    ensures Lookup(canonical, "path") == Lookup(arguments, "path")
  {
    StepKeyIsUntouched();
    PathKeyIsUntouched();
  }

  lemma {:induction false} SureKeyIsNoReferenceKey(kind: Kind, fields: seq<Field>)
    requires !kind.Unconstrained? && Has(fields, SureKey(kind))
    ensures !HasOnlyReferenceKeys(fields)
  {
    StepKeyIsUntouched();
    PathKeyIsUntouched();
    var i :| 0 <= i < |fields| && fields[i].key == SureKey(kind);
  }

  /** The constraints leave a step's arguments a well-formed reference only by leaving them alone. */
  lemma {:induction false} ConstrainedStepDeclared(kind: Kind, intent: Intent, request: Request, arguments: seq<Field>,
                                                   canonical: seq<Field>, ids: seq<string>)
    requires Rewrites(arguments, canonical) && ValueDeclared(Obj(arguments), ids)
    requires Constrains(kind, intent, request) ==> Has(canonical, SureKey(kind))
    requires !Constrains(kind, intent, request) ==> canonical == arguments
    ensures ValueDeclared(Obj(canonical), ids) <==> !(Has(arguments, "$step") && Constrains(kind, intent, request))
  {
    RewriteKeepsDeclared(arguments, canonical, ids);
    if Constrains(kind, intent, request) {
      SureKeyIsNoReferenceKey(kind, canonical);
    }
  }

  /** The steps agree on ids and dependencies. */
  predicate SameShape(a: seq<Step>, b: seq<Step>) {
    |a| == |b| && forall i :: 0 <= i < |a| ==> a[i].id == b[i].id && a[i].dependsOn == b[i].dependsOn
  }

  lemma {:induction false} GraphOfLast(steps: seq<Step>)
    requires steps != []
    ensures var last := steps[|steps| - 1];
            GraphOf(steps) == GraphOf(steps[..|steps| - 1])[last.id := last.dependsOn]
  {
  }

  lemma {:induction false} SameShapeSameGraph(a: seq<Step>, b: seq<Step>)
    requires SameShape(a, b)
    ensures GraphOf(a) == GraphOf(b)
  {
    if a != [] {
      var n := |a| - 1;
      assert SameShape(a[..n], b[..n]);
      SameShapeSameGraph(a[..n], b[..n]);
      GraphOfLast(a);
      GraphOfLast(b);
    }
  }

  lemma {:induction false} SameShapeSameUniqueness(a: seq<Step>, b: seq<Step>)
    requires SameShape(a, b) && UniqueIds(a)
    ensures UniqueIds(b) && GraphOf(a) == GraphOf(b)
  {
    SameShapeSameGraph(a, b);
  }

  predicate AllReferencesDeclared(steps: seq<Step>) {
    forall i :: 0 <= i < |steps| ==> ReferencesDeclared(steps[i])
  }

  /** Of two plans of one shape whose fields are valid, both are valid when their references are declared. */
  lemma {:induction false} SameShapeSameInvariant(a: seq<Step>, b: seq<Step>)
    requires SameShape(a, b) && GraphInvariant(a)
    ensures GraphInvariant(b) <==> AllReferencesDeclared(b)
  {
    SameShapeSameUniqueness(a, b);
  }

  predicate HasArguments(step: Step) {
    step.arguments.Obj?
  }

  /** `step.model_copy(update={"arguments": …})` */
  function WithArguments(step: Step, fields: seq<Field>): (r: Step)
    ensures r.id == step.id && r.dependsOn == step.dependsOn && r.service == step.service
    ensures r.operation == step.operation && r.arguments == Obj(fields)
    ensures FieldsValid(step) ==> FieldsValid(r)
  {
    step.(arguments := Obj(fields))
  }

  /** Whether the constraints spoil a step: they add a key to arguments that are a reference themselves. */
  predicate Spoils(step: Step, intent: Intent, request: Request)
    requires HasArguments(step)
  {
    Has(step.arguments.fields, "$step") && Constrains(KindOf(step.service, step.operation), intent, request)
  }

  ghost predicate ConstrainedStep(step: Step, r: Step) {
    && HasArguments(step) && HasArguments(r)
    && r == WithArguments(step, r.arguments.fields)
    && Rewrites(step.arguments.fields, r.arguments.fields)
  }

  /** Whether a step can be constrained. */
  function StepConstrainable(step: Step, intent: Intent, request: Request): Result<string, Fault>
    requires HasArguments(step)
  {
    Constrainable(KindOf(step.service, step.operation), step.arguments.fields, intent, request)
  }

  /** `r` is the step with exactly the arguments that the constraints give it. */
  ghost predicate CanonicalStep(step: Step, intent: Intent, request: Request, r: Step) {
    && ConstrainedStep(step, r) && StepConstrainable(step, intent, request).Ok?
    && IsCanonical(KindOf(step.service, step.operation), step.arguments.fields, intent, request, r.arguments.fields)
  }

  /** What the constraints make of one step. */
  ghost predicate ConstrainsTo(step: Step, intent: Intent, request: Request, r: Step) {
    && CanonicalStep(step, intent, request, r)
    && (ReferencesDeclared(step) ==> (ReferencesDeclared(r) <==> !Spoils(step, intent, request)))
  }

  /** One step under the constraints; its references stay declared exactly when it is not spoilt. */
  method ConstrainStep(step: Step, intent: Intent, request: Request) returns (r: Result<Step, Fault>)
    requires HasArguments(step)
    ensures r.Ok? ==> ConstrainsTo(step, intent, request, r.value)
    ensures r.Err? ==> StepConstrainable(step, intent, request) == Err(r.error)
  {
    var kind := KindOf(step.service, step.operation);
    var arguments := step.arguments.fields;
    var canonical := CanonicalArguments(kind, arguments, intent, request);
    if canonical.Err? {
      return Err(canonical.error);
    }
    if ReferencesDeclared(step) {
      if Constrains(kind, intent, request) {
        SureKeyIsSet(kind, arguments, intent, request, canonical.value);
      }
      ConstrainedStepDeclared(kind, intent, request, arguments, canonical.value, step.dependsOn);
    }
    return Ok(WithArguments(step, canonical.value));
  }

  /** A plan between the constraints and the routing. */
  ghost predicate IsConstrained(steps: seq<Step>, intent: Intent, request: Request, copies: seq<Step>) {
    && |copies| == |steps|
    && forall i {:trigger ConstrainsTo(steps[i], intent, request, copies[i])} :: 0 <= i < |steps| ==>
         ConstrainsTo(steps[i], intent, request, copies[i])
  }

  lemma {:induction false} OneMoreConstrained(steps: seq<Step>, i: nat, intent: Intent, request: Request,
                                              copies: seq<Step>, copy: Step)
    requires i < |steps| && IsConstrained(steps[..i], intent, request, copies)
    requires ConstrainsTo(steps[i], intent, request, copy)
    ensures IsConstrained(steps[..i + 1], intent, request, copies + [copy])
  {
    var more := copies + [copy];
    forall j | 0 <= j < i + 1 ensures ConstrainsTo(steps[..i + 1][j], intent, request, more[j]) {
      if j < i {
        assert ConstrainsTo(steps[..i][j], intent, request, copies[j]);
      }
    }
  }

  /** The first step that cannot be constrained fails like this. */
  ghost predicate ConstrainingFails(steps: seq<Step>, intent: Intent, request: Request, fault: Fault)
    requires forall i :: 0 <= i < |steps| ==> HasArguments(steps[i])
  {
    exists i :: 0 <= i < |steps| && StepConstrainable(steps[i], intent, request) == Err(fault)
                && forall j :: 0 <= j < i ==> StepConstrainable(steps[j], intent, request).Ok?
  }

  lemma {:induction false} FailsAt(steps: seq<Step>, i: nat, intent: Intent, request: Request, copies: seq<Step>,
                                   fault: Fault)
    requires forall k :: 0 <= k < |steps| ==> HasArguments(steps[k])
    requires i < |steps| && IsConstrained(steps[..i], intent, request, copies)
    requires StepConstrainable(steps[i], intent, request) == Err(fault)
    ensures ConstrainingFails(steps, intent, request, fault)
  {
    forall j | 0 <= j < i ensures StepConstrainable(steps[j], intent, request).Ok? {
      assert ConstrainsTo(steps[..i][j], intent, request, copies[j]);
    }
  }

  /**
   The constraints change arguments only, each as it should be, and add no reference; or they
   fail as the first step fails that cannot be constrained.
   */
  method ConstrainSteps(steps: seq<Step>, intent: Intent, request: Request) returns (r: Result<seq<Step>, Fault>)
    requires forall i :: 0 <= i < |steps| ==> HasArguments(steps[i])
    ensures r.Ok? ==> IsConstrained(steps, intent, request, r.value)
    ensures r.Err? ==> ConstrainingFails(steps, intent, request, r.error)
  {
    var copies: seq<Step> := [];
    for i := 0 to |steps|
      invariant IsConstrained(steps[..i], intent, request, copies)
    {
      var copy := ConstrainStep(steps[i], intent, request);
      if copy.Err? {
        FailsAt(steps, i, intent, request, copies, copy.error);
        return Err(copy.error);
      }
      OneMoreConstrained(steps, i, intent, request, copies, copy.value);
      copies := copies + [copy.value];
    }
    assert steps[..|steps|] == steps;
    return Ok(copies);
  }

  /** The constrained plan stays valid exactly when no constrained step has a reference for its whole arguments. */
  lemma {:induction false} ConstrainedPlanValidity(steps: seq<Step>, copies: seq<Step>, intent: Intent,
                                                   request: Request)
    requires ValidPlan(steps) && IsConstrained(steps, intent, request, copies)
    ensures forall i :: 0 <= i < |steps| ==> HasArguments(steps[i])
    ensures ValidPlan(copies) <==> forall i :: 0 <= i < |steps| ==> !Spoils(steps[i], intent, request)
  {
    forall i | 0 <= i < |copies|
      ensures HasArguments(steps[i]) && FieldsValid(copies[i])
      ensures copies[i].id == steps[i].id && copies[i].dependsOn == steps[i].dependsOn
      ensures ReferencesDeclared(copies[i]) <==> !Spoils(steps[i], intent, request)
    {
      assert FieldsValid(steps[i]) && ReferencesDeclared(steps[i])
               && ConstrainsTo(steps[i], intent, request, copies[i]);
    }
    SameShapeSameInvariant(steps, copies);
  }

  /** Such a step exists: a valid step whose whole arguments are a reference, spoilt by any intent. */
  lemma {:induction false} SpoiltStepExample(intent: Intent, request: Request)
    ensures var step := Step("b", Workspace, "workspace_search", Obj([Field("$step", Str("a"))]), ["a"]);
            FieldsValid(step) && ReferencesDeclared(step) && Spoils(step, intent, request)
  {
    var fields := [Field("$step", Str("a"))];
    var step := Step("b", Workspace, "workspace_search", Obj(fields), ["a"]);
    assert fields[0].key == "$step";
    assert (set d | d in ["a"]) == {"a"};
    IdentifierIsTrimmed("a");
    assert FindStepReferences(Obj(fields)) == Some(["a"]);
  }

  /** The registry refuses every spoilt plan, so one that it accepts kept the graph invariant. */
  lemma {:induction false} AcceptedPlanIsNotSpoilt(clock: Clock, step: Step, r: Step, intent: Intent, request: Request)
    requires ConstrainedStep(step, r)
    requires ValidateArguments(clock, r.service, r.operation, r.arguments.fields, true) == Valid
    ensures !Spoils(step, intent, request)
  {
    ReferenceKeysAreKept(step.arguments.fields, r.arguments.fields);
    DeclaredKeysExcludeStep(r.service, r.operation, r.arguments.fields);
  }
}
