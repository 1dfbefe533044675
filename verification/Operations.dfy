/**
 The operation catalogue, argument validation in its strict and reference-tolerant
 modes, and the agent registry: what may be called, and what needs approval first.
 */
module Operations {
  import opened Text
  import opened Json
  import opened References
  import opened Contracts

  // ---------- the catalogue ----------

  datatype OperationSpec = OperationSpec(required: set<string>, optional: set<string>)

  function GmailSpec(operation: string): Option<OperationSpec> {
    if operation == "search_emails" then
      Some(OperationSpec({}, {"sender", "keywords", "date_from", "date_to", "max_results"}))
    else if operation == "get_email" then Some(OperationSpec({"message_id"}, {}))
    else if operation == "draft_email" then Some(OperationSpec({"to", "subject", "body"}, {}))
    else if operation == "send_email" then Some(OperationSpec({}, {"draft_id", "to", "subject", "body"}))
    else if operation == "update_labels" then
      Some(OperationSpec({"message_id"}, {"add_label_ids", "remove_label_ids"}))
    else None
  }

  function CalendarSpec(operation: string): Option<OperationSpec> {
    if operation == "search_events" then
      Some(OperationSpec({}, {"time_min", "time_max", "keywords", "attendee", "max_results", "calendar_id"}))
    else if operation == "get_event" then Some(OperationSpec({"event_id"}, {"calendar_id"}))
    else if operation == "create_event" then
      Some(OperationSpec({"title", "start", "end"},
                         {"calendar_id", "timezone", "description", "attendees", "create_google_meet"}))
    else if operation == "update_event" then
      Some(OperationSpec({"event_id"},
                         {"calendar_id", "title", "start", "end", "timezone", "description", "attendees"}))
    else if operation == "delete_event" then Some(OperationSpec({"event_id"}, {"calendar_id"}))
    else None
  }

  function DriveSpec(operation: string): Option<OperationSpec> {
    if operation == "search_files" then
      Some(OperationSpec({}, {"filename", "mime_type", "modified_after", "modified_before", "max_results"}))
    else if operation == "get_file" then Some(OperationSpec({"file_id"}, {}))
    else if operation == "share_file" then Some(OperationSpec({"file_id", "email"}, {"role"}))
    else if operation == "create_folder" then Some(OperationSpec({"name"}, {"parent_id"}))
    else if operation == "move_file" then Some(OperationSpec({"file_id", "destination_folder_id"}, {}))
    else None
  }

  function WorkspaceSpec(operation: string): Option<OperationSpec> {
    if operation == "workspace_search" then
      Some(OperationSpec({"query"}, {"services", "top_k", "sender", "date_from", "date_to", "mime_type", "attendee"}))
    else None
  }

  function SpecOf(service: Service, operation: string): Option<OperationSpec> {
    match service
    case Gmail => GmailSpec(operation)
    case Calendar => CalendarSpec(operation)
    case Drive => DriveSpec(operation)
    case Workspace => WorkspaceSpec(operation)
  }

  const LIST_ARGUMENTS := {"add_label_ids", "remove_label_ids", "attendees", "services"}
  const TIMESTAMP_ARGUMENTS := {"time_min", "time_max", "start", "end", "modified_after", "modified_before"}

  // ---------- argument validation ----------

  /** Date parsing, which is not modelled: an aware timestamp's instant, a plain date's day. */
  datatype Clock = Clock(instant: string -> Option<int>, day: string -> Option<int>)

  datatype Verdict = Valid | ValueError | TypeError

  predicate IsStringList(v: Value) {
    v.Arr? && forall i :: 0 <= i < |v.items| ==> v.items[i].Str? && v.items[i].s != ""
  }

  predicate IsIntBetween(v: Value, low: int, high: int) {
    v.Int? && low <= v.n <= high
  }

  function AwareTimestamp(clock: Clock, v: Value): Option<int> {
    if v.Str? then clock.instant(v.s) else None
  }

  function IsoDate(clock: Clock, v: Value): Option<int> {
    if v.Str? then clock.day(v.s) else None
  }

  predicate IsNullOr(v: Value, holds: bool) {
    v.Null? || holds
  }

  /** A search string, or a calendar event with a title. */
  predicate IsWorkspaceQuery(v: Value) {
    || (v.Str? && !IsBlank(v.s))
    || (&& v.Obj?
        && GetOr(v.fields, "title", Null).Str? && !IsBlank(GetOr(v.fields, "title", Null).s)
        && var description := GetOr(v.fields, "description", Null);
        var attendees := GetOr(v.fields, "attendees", Null);
        && IsNullOr(description, description.Str?)
        && IsNullOr(attendees, attendees.Arr? && forall i :: 0 <= i < |attendees.items| ==> attendees.items[i].Str?))
  }

  predicate ArgumentValid(clock: Clock, service: Service, operation: string, name: string, v: Value) {
    if service == Workspace && operation == "workspace_search" && name == "query" then IsWorkspaceQuery(v)
    else if name == "max_results" then IsIntBetween(v, 1, if service == Calendar then 250 else 100)
    else if name == "top_k" then IsIntBetween(v, 1, 50)
    else if name == "create_google_meet" then v.Bool?
    else if name in LIST_ARGUMENTS then IsStringList(v)
    else if name in TIMESTAMP_ARGUMENTS then AwareTimestamp(clock, v).Some?
    else if name in {"date_from", "date_to"} then
      if service == Workspace then AwareTimestamp(clock, v).Some? else IsoDate(clock, v).Some?
    else v.Str? && v.s != ""
  }

  /** Both bounds present and reference-free implies that both parse and the first precedes the second. */
  predicate Ordered(fields: seq<Field>, start: string, end: string, parse: Value -> Option<int>) {
    var a, b := Lookup(fields, start), Lookup(fields, end);
    a.Some? && b.Some? && !ContainsStepReference(a.value) && !ContainsStepReference(b.value) ==>
      parse(a.value).Some? && parse(b.value).Some? && parse(a.value).value < parse(b.value).value
  }

  const SEARCHABLE := {"gmail", "google_calendar", "google_drive"}

  /** Membership of each element in the searchable services, in order; an unhashable element is a type error. */
  function ServicesVerdict(items: seq<Value>): Verdict {
    if items == [] then Valid
    else if items[0].Arr? || items[0].Obj? then TypeError
    else if !(items[0].Str? && items[0].s in SEARCHABLE) then ValueError
    else ServicesVerdict(items[1..])
  }

  /** The elements a `for` loop over a value visits: an object is iterated by key. */
  function Iterated(v: Value): Option<seq<Value>> {
    match v
    case Arr(items) => Some(items)
    case Obj(fields) => Some(seq(|fields|, i requires 0 <= i < |fields| => Str(fields[i].key)))
    case Str(s) => Some(seq(|s|, i requires 0 <= i < |s| => Str([s[i]])))
    case _ => None
  }

  predicate KeysDeclared(spec: OperationSpec, fields: seq<Field>) {
    && (forall i :: 0 <= i < |fields| ==> fields[i].key in spec.required + spec.optional)
    && forall name :: name in spec.required ==> Has(fields, name)
  }

  function ValidateArguments(clock: Clock, service: Service, operation: string, fields: seq<Field>, tolerant: bool)
    : Verdict
  {
    var spec := SpecOf(service, operation);
    if spec.None? || !KeysDeclared(spec.value, fields) then ValueError
    else if exists i :: 0 <= i < |fields|
                        && !(tolerant && ContainsStepReference(fields[i].value))
                        && !ArgumentValid(clock, service, operation, fields[i].key, fields[i].value) then ValueError
    else if operation == "send_email" && !Has(fields, "draft_id")
            && !(Has(fields, "to") && Has(fields, "subject") && Has(fields, "body")) then ValueError
    else if operation == "update_event"
            && forall i :: 0 <= i < |fields| ==> fields[i].key in {"event_id", "calendar_id"} then ValueError
    else if operation == "share_file" && !RoleAccepted(GetOr(fields, "role", Str("reader")), tolerant) then ValueError
    else ValidateService(clock, service, fields)
  }

  predicate RoleAccepted(role: Value, tolerant: bool) {
    (tolerant && ContainsStepReference(role)) || (role.Str? && role.s in {"reader", "commenter", "writer"})
  }

  function ValidateService(clock: Clock, service: Service, fields: seq<Field>): Verdict {
    var timestamp := (v: Value) => AwareTimestamp(clock, v);
    match service
    case Calendar =>
      if Ordered(fields, "time_min", "time_max", timestamp) && Ordered(fields, "start", "end", timestamp)
      then Valid else ValueError
    case Drive => if Ordered(fields, "modified_after", "modified_before", timestamp) then Valid else ValueError
    case Gmail =>
      if Ordered(fields, "date_from", "date_to", (v: Value) => IsoDate(clock, v)) then Valid else ValueError
    case Workspace =>
      var services := Iterated(GetOr(fields, "services", Arr([])));
      if services.None? then TypeError
      else
        var verdict := ServicesVerdict(services.value);
        if verdict != Valid then verdict
        else if Ordered(fields, "date_from", "date_to", timestamp) then Valid else ValueError
  }

  // ---------- references in validated arguments ----------

  lemma {:induction false} StringListHasNoReference(items: seq<Value>)
    requires forall i :: 0 <= i < |items| ==> items[i].Str?
    ensures ItemReferences(items) == []
  {
    if items != [] {
      StringListHasNoReference(items[1..]);
    }
  }

  lemma {:induction false} FieldsWithoutReferences(fields: seq<Field>)
    requires forall i :: 0 <= i < |fields| ==> AllReferences(fields[i].value) == []
    ensures FieldReferences(fields) == []
  {
    if fields != [] {
      FieldsWithoutReferences(fields[1..]);
    }
  }

  predicate NoDollar(names: set<string>) {
    forall name :: name in names ==> name != "" && name[0] != '$'
  }

  lemma {:induction false} GmailArgumentNames(operation: string)
    ensures var spec := GmailSpec(operation); spec.Some? ==> NoDollar(spec.value.required + spec.value.optional)
  {
  }

  lemma {:induction false} CalendarArgumentNames(operation: string)
    ensures var spec := CalendarSpec(operation); spec.Some? ==> NoDollar(spec.value.required + spec.value.optional)
  {
  }

  lemma {:induction false} DriveArgumentNames(operation: string)
    ensures var spec := DriveSpec(operation); spec.Some? ==> NoDollar(spec.value.required + spec.value.optional)
  {
  }

  lemma {:induction false} WorkspaceArgumentNames(operation: string)
    ensures var spec := WorkspaceSpec(operation); spec.Some? ==> NoDollar(spec.value.required + spec.value.optional)
  {
  }

  /** A validated object never has a `$step` key of its own. */
  lemma {:induction false} DeclaredKeysExcludeStep(service: Service, operation: string, fields: seq<Field>)
    requires SpecOf(service, operation).Some? && KeysDeclared(SpecOf(service, operation).value, fields)
    ensures !Has(fields, "$step")
  {
    GmailArgumentNames(operation);
    CalendarArgumentNames(operation);
    DriveArgumentNames(operation);
    WorkspaceArgumentNames(operation);
    assert "$step"[0] == '$';
  }

  /** Strictly validated arguments of a native operation contain no reference. */
  lemma {:induction false} StrictArgumentsHaveNoReference(clock: Clock, service: Service, operation: string,
                                                          fields: seq<Field>)
    requires ValidateArguments(clock, service, operation, fields, false) == Valid
    requires service != Workspace
    ensures AllReferences(Obj(fields)) == []
  {
    DeclaredKeysExcludeStep(service, operation, fields);
    forall i | 0 <= i < |fields| ensures AllReferences(fields[i].value) == [] {
      assert ArgumentValid(clock, service, operation, fields[i].key, fields[i].value);
      if fields[i].value.Arr? {
        StringListHasNoReference(fields[i].value.items);
      }
    }
    FieldsWithoutReferences(fields);
  }

  /** For a workspace search a reference survives strict validation exactly inside an event-shaped query. */
  lemma {:induction false} StrictWorkspaceReferenceIsInQuery(clock: Clock, operation: string, fields: seq<Field>)
    requires ValidateArguments(clock, Workspace, operation, fields, false) == Valid
    ensures ContainsStepReference(Obj(fields)) <==>
            exists i :: 0 <= i < |fields| && fields[i].key == "query" && ContainsStepReference(fields[i].value)
  {
    DeclaredKeysExcludeStep(Workspace, operation, fields);
    forall i | 0 <= i < |fields| && fields[i].key != "query" ensures !ContainsStepReference(fields[i].value) {
      assert ArgumentValid(clock, Workspace, operation, fields[i].key, fields[i].value);
      ContainsAgrees(fields[i].value);
      if fields[i].value.Arr? {
        StringListHasNoReference(fields[i].value.items);
      }
    }
  }

  /** The workspace exception is real: an event-shaped query with a `$step` key validates strictly. */
  lemma {:induction false} WorkspaceReferenceCounterexample(clock: Clock)
    ensures var query := Obj([Field("title", Str("t")), Field("$step", Str("a"))]);
            var fields := [Field("query", query)];
            ValidateArguments(clock, Workspace, "workspace_search", fields, false) == Valid
            && ContainsStepReference(Obj(fields))
  {
    var inner := [Field("title", Str("t")), Field("$step", Str("a"))];
    var fields := [Field("query", Obj(inner))];
    EventWithStep(inner);
    QueryAloneIsValid(clock, fields);
    assert ContainsStepReference(fields[0].value);
  }

  lemma {:induction false} EventWithStep(inner: seq<Field>)
    requires inner == [Field("title", Str("t")), Field("$step", Str("a"))]
    ensures IsWorkspaceQuery(Obj(inner)) && Has(inner, "$step")
  {
    assert inner[1..] == [inner[1]] && inner[1..][1..] == [];
    assert Lookup(inner[1..], "$step").Some?;
    assert Lookup(inner, "title") == Some(Str("t"));
    assert !IsSpace("t"[0]);
  }

  lemma {:induction false} QueryAloneIsValid(clock: Clock, fields: seq<Field>)
    requires |fields| == 1 && fields[0].key == "query" && IsWorkspaceQuery(fields[0].value)
    ensures ValidateArguments(clock, Workspace, "workspace_search", fields, false) == Valid
  {
    assert fields[1..] == [];
    assert forall k :: Has(fields, k) <==> k == "query";
    assert ServicesVerdict([]) == Valid;
    assert ValidateService(clock, Workspace, fields) == Valid;
  }

  /** The tolerant mode accepts whatever the strict mode accepts, and adds nothing without references. */
  lemma {:induction false} ModesAgree(clock: Clock, service: Service, operation: string, fields: seq<Field>)
    ensures ValidateArguments(clock, service, operation, fields, false) == Valid ==>
              ValidateArguments(clock, service, operation, fields, true) == Valid
    ensures AllReferences(Obj(fields)) == [] ==>
              ValidateArguments(clock, service, operation, fields, false)
              == ValidateArguments(clock, service, operation, fields, true)
  {
    if AllReferences(Obj(fields)) == [] {
      ContainsAgrees(Obj(fields));
    }
  }

  /** Tolerantly validated arguments resolve, if at all, to an object with the same keys. */
  lemma {:induction false} ResolvedArgumentsKeepKeys(digits: Digits, clock: Clock, service: Service, operation: string,
                                                     fields: seq<Field>, data: map<string, Value>)
    requires ValidateArguments(clock, service, operation, fields, true) == Valid
    requires Resolve(digits, Obj(fields), data).Ok?
    ensures var r := Resolve(digits, Obj(fields), data).value;
            r.Obj? && |r.fields| == |fields| && forall i :: 0 <= i < |fields| ==> r.fields[i].key == fields[i].key
  {
    DeclaredKeysExcludeStep(service, operation, fields);
    ResolvedFieldsKeepKeys(digits, fields, data);
  }

  // ---------- the registry ----------

  const APPROVAL_REQUIRED: set<(Service, string)> := {
    (Gmail, "send_email"),
    (Gmail, "update_labels"),
    (Calendar, "create_event"),
    (Calendar, "update_event"),
    (Calendar, "delete_event"),
    (Drive, "share_file"),
    (Drive, "create_folder"),
    (Drive, "move_file")
  }

  predicate RequiresApproval(service: Service, operation: string) {
    (service, operation) in APPROVAL_REQUIRED
  }

  /** An operation that only looks something up, or leaves a draft behind. */
  predicate OnlyReads(operation: string) {
    "search_" <= operation || "get_" <= operation || operation == "draft_email" || operation == "workspace_search"
  }

  lemma {:induction false} NoReadStartsSo(operation: string, i: nat)
    requires i < |operation| && i < 7 && operation[i] != "search_"[i] && operation[0] != 'g'
    requires operation != "draft_email" && operation != "workspace_search"
    ensures !OnlyReads(operation)
  {
    assert "get_"[0] == 'g';
  }

  /** Of the catalogue's operations, exactly those that do more than read need approval, and no other operation does. */
  lemma {:induction false} WritesNeedApproval(service: Service, operation: string)
    ensures RequiresApproval(service, operation) <==> SpecOf(service, operation).Some? && !OnlyReads(operation)
  {
    match service
    case Gmail => GmailWritesNeedApproval(operation);
    case Calendar => CalendarWritesNeedApproval(operation);
    case Drive => DriveWritesNeedApproval(operation);
    case Workspace =>
  }

  lemma {:induction false} GmailWritesNeedApproval(operation: string)
    ensures RequiresApproval(Gmail, operation) <==> GmailSpec(operation).Some? && !OnlyReads(operation)
  {
    assert OnlyReads("search_emails") by { assert "search_emails"[..7] == "search_"; }
    assert OnlyReads("get_email") by { assert "get_email"[..4] == "get_"; }
    if operation == "send_email" {
      NoReadStartsSo(operation, 2);
    } else if operation == "update_labels" {
      NoReadStartsSo(operation, 0);
    }
  }

  lemma {:induction false} CalendarWritesNeedApproval(operation: string)
    ensures RequiresApproval(Calendar, operation) <==> CalendarSpec(operation).Some? && !OnlyReads(operation)
  {
    assert OnlyReads("search_events") by { assert "search_events"[..7] == "search_"; }
    assert OnlyReads("get_event") by { assert "get_event"[..4] == "get_"; }
    if operation == "create_event" || operation == "update_event" || operation == "delete_event" {
      NoReadStartsSo(operation, 0);
    }
  }

  lemma {:induction false} DriveWritesNeedApproval(operation: string)
    ensures RequiresApproval(Drive, operation) <==> DriveSpec(operation).Some? && !OnlyReads(operation)
  {
    assert OnlyReads("search_files") by { assert "search_files"[..7] == "search_"; }
    assert OnlyReads("get_file") by { assert "get_file"[..4] == "get_"; }
    if operation == "share_file" {
      NoReadStartsSo(operation, 1);
    } else if operation == "create_folder" || operation == "move_file" {
      NoReadStartsSo(operation, 0);
    }
  }

  /** What an agent call yields: a reply, or an exception. */
  datatype AgentReply = Replied(status: Status, data: Value, error: Option<ErrorInfo>) | Raised

  type Agent = (Service, string, Value) -> AgentReply

  /** The registry as the executor uses it. */
  datatype Registry = Registry(
    validatePlan: seq<Step> -> Verdict,
    supports: (Service, string) -> bool,
    requiresApproval: (Service, string) -> bool,
    execute: (Service, string, Value) -> AgentReply)

  /** The registry of the four workspace agents. */
  function WorkspaceRegistry(clock: Clock, agent: Agent): Registry {
    Registry(
      (steps: seq<Step>) => PlanVerdict(clock, steps),
      (service: Service, operation: string) => SpecOf(service, operation).Some?,
      (service: Service, operation: string) => RequiresApproval(service, operation),
      (service: Service, operation: string, arguments: Value) =>
        RegistryExecute(clock, agent, service, operation, arguments))
  }

  function PlanVerdict(clock: Clock, steps: seq<Step>): Verdict {
    if steps == [] then Valid
    else if !steps[0].arguments.Obj? then TypeError
    else
      var verdict := ValidateArguments(clock, steps[0].service, steps[0].operation, steps[0].arguments.fields, true);
      if verdict != Valid then verdict else PlanVerdict(clock, steps[1..])
  }

  lemma {:induction false} ValidPlanHasValidSteps(clock: Clock, steps: seq<Step>)
    ensures PlanVerdict(clock, steps) == Valid <==>
            forall i :: 0 <= i < |steps| ==>
              && steps[i].arguments.Obj?
              && ValidateArguments(clock, steps[i].service, steps[i].operation, steps[i].arguments.fields, true) ==
                   Valid
  {
    if steps != [] {
      ValidPlanHasValidSteps(clock, steps[1..]);
      assert forall i :: 0 < i < |steps| ==> steps[i] == steps[1..][i - 1];
    }
  }

  /** Whether the registry hands a call on to an agent: a supported operation with strictly valid arguments. */
  predicate Dispatches(clock: Clock, service: Service, operation: string, arguments: Value) {
    arguments.Obj? && ValidateArguments(clock, service, operation, arguments.fields, false) == Valid
  }

  function RegistryExecute(clock: Clock, agent: Agent, service: Service, operation: string, arguments: Value)
    : AgentReply
  {
    if Dispatches(clock, service, operation, arguments) then agent(service, operation, arguments) else Raised
  }

  lemma {:induction false} NoSearchNeedsApproval(service: Service, operation: string)
    requires RequiresApproval(service, operation)
    ensures service != Workspace
  {
  }

  /** An operation that needs approval reaches its agent only with reference-free arguments. */
  lemma {:induction false} DispatchedWriteHasNoReference(clock: Clock, service: Service, operation: string,
                                                         arguments: Value)
    requires RequiresApproval(service, operation) && Dispatches(clock, service, operation, arguments)
    ensures AllReferences(arguments) == []
  {
    NoSearchNeedsApproval(service, operation);
    StrictArgumentsHaveNoReference(clock, service, operation, arguments.fields);
  }
}
