/**
 The calls that validation lets pass, operation by operation: what each argument has to be,
 which are needed, and what must hold between them.
 */
module Signatures {
  import opened Text
  import opened Json
  import opened References
  import opened Contracts
  import opened Operations

  datatype Shape = Name | Names | Instant | Day | Number(most: int) | Flag | Query

  predicate IsName(v: Value) {
    v.Str? && v.s != ""
  }

  predicate IsWritten(v: Value) {
    v.Str? && exists c :: c in v.s && !IsSpace(c)
  }

  /** A written question, or an event with a written title, maybe with a description and attendees. */
  predicate IsQuestion(v: Value) {
    || IsWritten(v)
    || (&& v.Obj?
        && var title, description, attendees :=
             Lookup(v.fields, "title"), Lookup(v.fields, "description"), Lookup(v.fields, "attendees");
        && title.Some? && IsWritten(title.value)
        && (description.Some? ==> description.value.Str? || description.value.Null?)
        && (attendees.Some? ==> attendees.value.Null?
                                || (attendees.value.Arr? && forall x :: x in attendees.value.items ==> x.Str?)))
  }

  lemma {:induction false} WrittenMeans(v: Value)
    ensures IsWritten(v) <==> v.Str? && !IsBlank(v.s)
  {
    if v.Str? {
      assert forall i :: 0 <= i < |v.s| ==> v.s[i] in v.s;
    }
  }

  lemma {:induction false} StringsMean(items: seq<Value>)
    ensures (forall i :: 0 <= i < |items| ==> items[i].Str?) <==> forall x :: x in items ==> x.Str?
  {
    assert forall i :: 0 <= i < |items| ==> items[i] in items;
  }

  lemma {:induction false} QuestionMeans(v: Value)
    ensures IsQuestion(v) <==> IsWorkspaceQuery(v)
  {
    WrittenMeans(v);
    if v.Obj? {
      WrittenMeans(GetOr(v.fields, "title", Null));
      var attendees := GetOr(v.fields, "attendees", Null);
      if attendees.Arr? {
        StringsMean(attendees.items);
      }
    }
  }

  predicate HasShape(clock: Clock, shape: Shape, v: Value) {
    match shape
    case Name => IsName(v)
    case Names => v.Arr? && forall x :: x in v.items ==> IsName(x)
    case Instant => v.Str? && clock.instant(v.s).Some?
    case Day => v.Str? && clock.day(v.s).Some?
    case Number(most) => v.Int? && 1 <= v.n <= most
    case Flag => v.Bool?
    case Query => IsQuestion(v)
  }

  // ---------- what the arguments are ----------

  function GmailShape(operation: string, name: string): Option<Shape> {
    if operation == "search_emails" then
      if name == "sender" || name == "keywords" then Some(Name)
      else if name == "date_from" || name == "date_to" then Some(Day)
      else if name == "max_results" then Some(Number(100))
      else None
    else if operation == "get_email" then
      if name == "message_id" then Some(Name) else None
    else if operation == "draft_email" then
      if name == "to" || name == "subject" || name == "body" then Some(Name) else None
    else if operation == "send_email" then
      if name == "draft_id" || name == "to" || name == "subject" || name == "body" then Some(Name) else None
    else if operation == "update_labels" then
      if name == "message_id" then Some(Name)
      else if name == "add_label_ids" || name == "remove_label_ids" then Some(Names)
      else None
    else None
  }

  function CalendarShape(operation: string, name: string): Option<Shape> {
    if operation == "search_events" then
      if name == "keywords" || name == "attendee" || name == "calendar_id" then Some(Name)
      else if name == "time_min" || name == "time_max" then Some(Instant)
      else if name == "max_results" then Some(Number(250))
      else None
    else if operation == "get_event" || operation == "delete_event" then
      if name == "event_id" || name == "calendar_id" then Some(Name) else None
    else if operation == "create_event" then
      if name == "create_google_meet" then Some(Flag) else EventShape(name)
    else if operation == "update_event" then
      if name == "event_id" then Some(Name) else EventShape(name)
    else None
  }

  function EventShape(name: string): Option<Shape> {
    if name == "calendar_id" || name == "title" || name == "timezone" || name == "description" then Some(Name)
    else if name == "start" || name == "end" then Some(Instant)
    else if name == "attendees" then Some(Names)
    else None
  }

  function DriveShape(operation: string, name: string): Option<Shape> {
    if operation == "search_files" then
      if name == "filename" || name == "mime_type" then Some(Name)
      else if name == "modified_after" || name == "modified_before" then Some(Instant)
      else if name == "max_results" then Some(Number(100))
      else None
    else if operation == "get_file" then
      if name == "file_id" then Some(Name) else None
    else if operation == "share_file" then
      if name == "file_id" || name == "email" || name == "role" then Some(Name) else None
    else if operation == "create_folder" then
      if name == "name" || name == "parent_id" then Some(Name) else None
    else if operation == "move_file" then
      if name == "file_id" || name == "destination_folder_id" then Some(Name) else None
    else None
  }

  function WorkspaceShape(operation: string, name: string): Option<Shape> {
    if operation == "workspace_search" then
      if name == "query" then Some(Query)
      else if name == "services" then Some(Names)
      else if name == "top_k" then Some(Number(50))
      else if name == "date_from" || name == "date_to" then Some(Instant)
      else if name == "sender" || name == "mime_type" || name == "attendee" then Some(Name)
      else None
    else None
  }

  function ShapeOf(service: Service, operation: string, name: string): Option<Shape> {
    match service
    case Gmail => GmailShape(operation, name)
    case Calendar => CalendarShape(operation, name)
    case Drive => DriveShape(operation, name)
    case Workspace => WorkspaceShape(operation, name)
  }

  // ---------- which are needed ----------

  predicate HasAll(fields: seq<Field>, a: string, b: string, c: string) {
    Has(fields, a) && Has(fields, b) && Has(fields, c)
  }

  predicate GmailComplete(operation: string, fields: seq<Field>) {
    || operation == "search_emails"
    || ((operation == "get_email" || operation == "update_labels") && Has(fields, "message_id"))
    || (operation == "draft_email" && HasAll(fields, "to", "subject", "body"))
    || (operation == "send_email" && (Has(fields, "draft_id") || HasAll(fields, "to", "subject", "body")))
  }

  predicate CalendarComplete(operation: string, fields: seq<Field>) {
    || operation == "search_events"
    || ((operation == "get_event" || operation == "delete_event") && Has(fields, "event_id"))
    || (operation == "create_event" && HasAll(fields, "title", "start", "end"))
    || (&& operation == "update_event" && Has(fields, "event_id")
        && exists f :: f in fields && f.key != "event_id" && f.key != "calendar_id")
  }

  predicate DriveComplete(operation: string, fields: seq<Field>) {
    || operation == "search_files"
    || (operation == "get_file" && Has(fields, "file_id"))
    || (operation == "share_file" && Has(fields, "file_id") && Has(fields, "email"))
    || (operation == "create_folder" && Has(fields, "name"))
    || (operation == "move_file" && Has(fields, "file_id") && Has(fields, "destination_folder_id"))
  }

  predicate Complete(service: Service, operation: string, fields: seq<Field>) {
    match service
    case Gmail => GmailComplete(operation, fields)
    case Calendar => CalendarComplete(operation, fields)
    case Drive => DriveComplete(operation, fields)
    case Workspace => operation == "workspace_search" && Has(fields, "query")
  }

  // ---------- what holds between them ----------

  /** Of two times in the arguments the first is earlier. */
  predicate InOrder(fields: seq<Field>, start: string, end: string, time: string -> Option<int>) {
    var a, b := Lookup(fields, start), Lookup(fields, end);
    a.Some? && a.value.Str? && b.Some? && b.value.Str? ==>
      && time(a.value.s).Some? && time(b.value.s).Some?
      && time(a.value.s).value < time(b.value.s).value
  }

  predicate IsSearchable(name: string) {
    name == "gmail" || name == "google_calendar" || name == "google_drive"
  }

  predicate IsListed(v: Value) {
    v.Str? && IsSearchable(v.s)
  }

  /** The value may yet change: it holds a reference, where references are tolerated. */
  predicate IsOpen(v: Value, tolerant: bool) {
    tolerant && ContainsStepReference(v)
  }

  /** A list of searchable services, or an open object with such keys: an open list is refused. */
  predicate AreSearchable(v: Value, tolerant: bool) {
    || (v.Arr? && forall x :: x in v.items ==> IsListed(x))
    || (v.Obj? && IsOpen(v, tolerant) && forall f :: f in v.fields ==> IsSearchable(f.key))
  }

  predicate IsRole(v: Value, tolerant: bool) {
    IsOpen(v, tolerant) || v == Str("reader") || v == Str("commenter") || v == Str("writer")
  }

  predicate Consistent(clock: Clock, service: Service, fields: seq<Field>, tolerant: bool) {
    match service
    case Gmail => InOrder(fields, "date_from", "date_to", clock.day)
    case Calendar =>
      InOrder(fields, "time_min", "time_max", clock.instant) && InOrder(fields, "start", "end", clock.instant)
    case Drive =>
      && InOrder(fields, "modified_after", "modified_before", clock.instant)
      && (Has(fields, "role") ==> IsRole(Lookup(fields, "role").value, tolerant))
    case Workspace =>
      && InOrder(fields, "date_from", "date_to", clock.instant)
      && (Has(fields, "services") ==> AreSearchable(Lookup(fields, "services").value, tolerant))
  }

  /** Every argument is one of the operation's, and open or of its shape. */
  predicate AreArguments(clock: Clock, service: Service, operation: string, fields: seq<Field>, tolerant: bool) {
    forall f :: f in fields ==> IsArgument(clock, service, operation, f, tolerant)
  }

  predicate IsArgument(clock: Clock, service: Service, operation: string, f: Field, tolerant: bool) {
    var shape := ShapeOf(service, operation, f.key);
    shape.Some? && (IsOpen(f.value, tolerant) || HasShape(clock, shape.value, f.value))
  }

  /** A call that passes: arguments of the right shapes, complete, and consistent with each other. */
  predicate IsCall(clock: Clock, service: Service, operation: string, fields: seq<Field>, tolerant: bool) {
    && AreArguments(clock, service, operation, fields, tolerant)
    && Complete(service, operation, fields)
    && Consistent(clock, service, fields, tolerant)
  }

  // ---------- the catalogue agrees ----------

  /** What validation makes of an argument's name, whatever the operation. */
  function UsualShape(service: Service, name: string): Shape {
    if name == "max_results" then Number(if service == Calendar then 250 else 100)
    else if name == "top_k" then Number(50)
    else if name == "create_google_meet" then Flag
    else if name in LIST_ARGUMENTS then Names
    else if name in TIMESTAMP_ARGUMENTS then Instant
    else if name == "date_from" || name == "date_to" then if service == Workspace then Instant else Day
    else Name
  }

  lemma {:induction false} NamesMean(v: Value)
    ensures IsStringList(v) <==> v.Arr? && forall x :: x in v.items ==> IsName(x)
  {
    if v.Arr? {
      assert forall i :: 0 <= i < |v.items| ==> v.items[i] in v.items;
    }
  }

  lemma {:induction false} UsualShapeMeans(clock: Clock, service: Service, operation: string, name: string, v: Value)
    requires !(service == Workspace && operation == "workspace_search" && name == "query")
    ensures ArgumentValid(clock, service, operation, name, v) <==> HasShape(clock, UsualShape(service, name), v)
  {
    NamesMean(v);
  }

  lemma {:induction false} GmailShapes(operation: string, name: string)
    ensures var shape := GmailShape(operation, name); shape.Some? ==> shape.value == UsualShape(Gmail, name)
  {
  }

  lemma {:induction false} EventShapes(name: string)
    ensures var shape := EventShape(name); shape.Some? ==> shape.value == UsualShape(Calendar, name)
  {
  }

  lemma {:induction false} CalendarShapes(operation: string, name: string)
    ensures var shape := CalendarShape(operation, name); shape.Some? ==> shape.value == UsualShape(Calendar, name)
  {
    EventShapes(name);
  }

  lemma {:induction false} DriveShapes(operation: string, name: string)
    ensures var shape := DriveShape(operation, name); shape.Some? ==> shape.value == UsualShape(Drive, name)
  {
  }

  lemma {:induction false} WorkspaceShapes(operation: string, name: string)
    ensures var shape := WorkspaceShape(operation, name);
            shape.Some? ==> shape.value == if name == "query" then Query else UsualShape(Workspace, name)
  {
  }

  predicate IsDeclared(spec: Option<OperationSpec>, name: string) {
    spec.Some? && name in spec.value.required + spec.value.optional
  }

  lemma {:induction false} GmailCatalogue(operation: string, name: string)
    ensures IsDeclared(GmailSpec(operation), name) <==> GmailShape(operation, name).Some?
  {
  }

  lemma {:induction false} CalendarCatalogue(operation: string, name: string)
    ensures IsDeclared(CalendarSpec(operation), name) <==> CalendarShape(operation, name).Some?
  {
  }

  lemma {:induction false} DriveCatalogue(operation: string, name: string)
    ensures IsDeclared(DriveSpec(operation), name) <==> DriveShape(operation, name).Some?
  {
  }

  lemma {:induction false} WorkspaceCatalogue(operation: string, name: string)
    ensures IsDeclared(WorkspaceSpec(operation), name) <==> WorkspaceShape(operation, name).Some?
  {
  }

  lemma {:induction false} ArgumentMeans(clock: Clock, service: Service, operation: string, f: Field, tolerant: bool)
    ensures IsArgument(clock, service, operation, f, tolerant) <==>
            && IsDeclared(SpecOf(service, operation), f.key)
            && (IsOpen(f.value, tolerant) || ArgumentValid(clock, service, operation, f.key, f.value))
  {
    match service
    case Gmail =>
      GmailCatalogue(operation, f.key);
      GmailShapes(operation, f.key);
      UsualShapeMeans(clock, service, operation, f.key, f.value);
    case Calendar =>
      CalendarCatalogue(operation, f.key);
      CalendarShapes(operation, f.key);
      UsualShapeMeans(clock, service, operation, f.key, f.value);
    case Drive =>
      DriveCatalogue(operation, f.key);
      DriveShapes(operation, f.key);
      UsualShapeMeans(clock, service, operation, f.key, f.value);
    case Workspace =>
      WorkspaceArgumentMeans(clock, operation, f, tolerant);
  }

  lemma {:induction false} WorkspaceArgumentMeans(clock: Clock, operation: string, f: Field, tolerant: bool)
    ensures IsArgument(clock, Workspace, operation, f, tolerant) <==>
            && IsDeclared(SpecOf(Workspace, operation), f.key)
            && (IsOpen(f.value, tolerant) || ArgumentValid(clock, Workspace, operation, f.key, f.value))
  {
    WorkspaceCatalogue(operation, f.key);
    WorkspaceShapes(operation, f.key);
    if f.key == "query" {
      QuestionMeans(f.value);
    } else {
      UsualShapeMeans(clock, Workspace, operation, f.key, f.value);
    }
  }

  // ---------- completeness ----------

  predicate HasEach(fields: seq<Field>, names: set<string>) {
    forall name :: name in names ==> Has(fields, name)
  }

  lemma {:induction false} OneIsEach(fields: seq<Field>, a: string)
    ensures HasEach(fields, {a}) <==> Has(fields, a)
  {
  }

  lemma {:induction false} TwoAreEach(fields: seq<Field>, a: string, b: string)
    ensures HasEach(fields, {a, b}) <==> Has(fields, a) && Has(fields, b)
  {
  }

  lemma {:induction false} ThreeAreEach(fields: seq<Field>, a: string, b: string, c: string)
    ensures HasEach(fields, {a, b, c}) <==> HasAll(fields, a, b, c)
  {
  }

  predicate HasRequired(spec: Option<OperationSpec>, fields: seq<Field>) {
    spec.Some? && HasEach(fields, spec.value.required)
  }

  predicate HasMessage(operation: string, fields: seq<Field>) {
    operation == "send_email" ==>
      Has(fields, "draft_id") || (Has(fields, "to") && Has(fields, "subject") && Has(fields, "body"))
  }

  predicate IsChanged(fields: seq<Field>) {
    exists i :: 0 <= i < |fields| && fields[i].key !in {"event_id", "calendar_id"}
  }

  predicate HasChange(operation: string, fields: seq<Field>) {
    operation == "update_event" ==> IsChanged(fields)
  }

  lemma {:induction false} ChangeMeans(fields: seq<Field>)
    ensures IsChanged(fields) <==> exists f :: f in fields && f.key != "event_id" && f.key != "calendar_id"
  {
    assert forall i :: 0 <= i < |fields| ==> fields[i] in fields;
  }

  lemma {:induction false} GmailNeeds(operation: string, fields: seq<Field>)
    ensures HasRequired(GmailSpec(operation), fields) && HasMessage(operation, fields) && HasChange(operation, fields)
            <==> GmailComplete(operation, fields)
  {
    OneIsEach(fields, "message_id");
    ThreeAreEach(fields, "to", "subject", "body");
  }

  lemma {:induction false} CalendarNeeds(operation: string, fields: seq<Field>)
    ensures HasRequired(CalendarSpec(operation), fields) && HasMessage(operation, fields)
            && HasChange(operation, fields)
            <==> CalendarComplete(operation, fields)
  {
    OneIsEach(fields, "event_id");
    ThreeAreEach(fields, "title", "start", "end");
    ChangeMeans(fields);
  }

  lemma {:induction false} DriveNeeds(operation: string, fields: seq<Field>)
    ensures HasRequired(DriveSpec(operation), fields) && HasMessage(operation, fields) && HasChange(operation, fields)
            <==> DriveComplete(operation, fields)
  {
    OneIsEach(fields, "file_id");
    OneIsEach(fields, "name");
    TwoAreEach(fields, "file_id", "email");
    TwoAreEach(fields, "file_id", "destination_folder_id");
  }

  lemma {:induction false} WorkspaceNeeds(operation: string, fields: seq<Field>)
    ensures HasRequired(WorkspaceSpec(operation), fields) && HasMessage(operation, fields)
            && HasChange(operation, fields)
            <==> Complete(Workspace, operation, fields)
  {
    OneIsEach(fields, "query");
  }

  lemma {:induction false} NeedsMean(service: Service, operation: string, fields: seq<Field>)
    ensures HasRequired(SpecOf(service, operation), fields) && HasMessage(operation, fields)
            && HasChange(operation, fields)
            <==> Complete(service, operation, fields)
  {
    match service
    case Gmail => GmailNeeds(operation, fields);
    case Calendar => CalendarNeeds(operation, fields);
    case Drive => DriveNeeds(operation, fields);
    case Workspace => WorkspaceNeeds(operation, fields);
  }

  // ---------- consistency ----------

  /** An argument of a time's shape, or open. */
  predicate IsTime(fields: seq<Field>, name: string, tolerant: bool, time: string -> Option<int>) {
    var v := Lookup(fields, name);
    v.Some? ==> IsOpen(v.value, tolerant) || (v.value.Str? && time(v.value.s).Some?)
  }

  lemma {:induction false} OrderMeans(fields: seq<Field>, start: string, end: string, tolerant: bool,
                                      time: string -> Option<int>, parse: Value -> Option<int>)
    requires IsTime(fields, start, tolerant, time) && IsTime(fields, end, tolerant, time)
    requires forall v: Value {:trigger parse(v)} :: parse(v) == if v.Str? then time(v.s) else None
    ensures Ordered(fields, start, end, parse) <==> InOrder(fields, start, end, time)
  {
  }

  lemma {:induction false} ArgumentIsFound(clock: Clock, service: Service, operation: string, fields: seq<Field>,
                                           tolerant: bool, name: string)
    requires AreArguments(clock, service, operation, fields, tolerant) && Has(fields, name)
    ensures IsArgument(clock, service, operation, Field(name, Lookup(fields, name).value), tolerant)
  {
    var i :| 0 <= i < |fields| && fields[i] == Field(name, Lookup(fields, name).value);
    assert fields[i] in fields;
  }

  lemma {:induction false} TimeIsTime(clock: Clock, service: Service, operation: string, fields: seq<Field>,
                                      tolerant: bool, name: string)
    requires AreArguments(clock, service, operation, fields, tolerant)
    requires ShapeOf(service, operation, name) in {None, Some(Instant)}
    ensures IsTime(fields, name, tolerant, clock.instant)
  {
    if Has(fields, name) {
      ArgumentIsFound(clock, service, operation, fields, tolerant, name);
    }
  }

  lemma {:induction false} DayIsTime(clock: Clock, service: Service, operation: string, fields: seq<Field>,
                                     tolerant: bool, name: string)
    requires AreArguments(clock, service, operation, fields, tolerant)
    requires ShapeOf(service, operation, name) in {None, Some(Day)}
    ensures IsTime(fields, name, tolerant, clock.day)
  {
    if Has(fields, name) {
      ArgumentIsFound(clock, service, operation, fields, tolerant, name);
    }
  }

  lemma {:induction false} EventTimes(operation: string)
    ensures CalendarShape(operation, "time_min") in {None, Some(Instant)}
    ensures CalendarShape(operation, "time_max") in {None, Some(Instant)}
    ensures CalendarShape(operation, "start") in {None, Some(Instant)}
    ensures CalendarShape(operation, "end") in {None, Some(Instant)}
  {
  }

  lemma {:induction false} FileTimes(operation: string)
    ensures DriveShape(operation, "modified_after") in {None, Some(Instant)}
    ensures DriveShape(operation, "modified_before") in {None, Some(Instant)}
    ensures DriveShape(operation, "role") in {None, Some(Name)}
    ensures DriveShape(operation, "role").Some? ==> operation == "share_file"
  {
  }

  lemma {:induction false} SearchTimes(operation: string)
    ensures WorkspaceShape(operation, "date_from") in {None, Some(Instant)}
    ensures WorkspaceShape(operation, "date_to") in {None, Some(Instant)}
    ensures WorkspaceShape(operation, "services") in {None, Some(Names)}
  {
  }

  lemma {:induction false} MailTimes(operation: string)
    ensures GmailShape(operation, "date_from") in {None, Some(Day)}
    ensures GmailShape(operation, "date_to") in {None, Some(Day)}
  {
  }

  lemma {:induction false} VerdictMeans(items: seq<Value>)
    ensures ServicesVerdict(items) == Valid <==> forall x :: x in items ==> IsListed(x)
  {
    if items != [] {
      VerdictMeans(items[1..]);
      assert items == [items[0]] + items[1..];
      assert items[0] in items && forall x :: x in items[1..] ==> x in items;
    }
  }

  lemma {:induction false} MailIsConsistent(clock: Clock, operation: string, fields: seq<Field>, tolerant: bool)
    requires AreArguments(clock, Gmail, operation, fields, tolerant)
    ensures ValidateService(clock, Gmail, fields) == Valid <==> Consistent(clock, Gmail, fields, tolerant)
  {
    MailTimes(operation);
    DayIsTime(clock, Gmail, operation, fields, tolerant, "date_from");
    DayIsTime(clock, Gmail, operation, fields, tolerant, "date_to");
    OrderMeans(fields, "date_from", "date_to", tolerant, clock.day, (v: Value) => IsoDate(clock, v));
  }

  lemma {:induction false} EventIsConsistent(clock: Clock, operation: string, fields: seq<Field>, tolerant: bool)
    requires AreArguments(clock, Calendar, operation, fields, tolerant)
    ensures ValidateService(clock, Calendar, fields) == Valid <==> Consistent(clock, Calendar, fields, tolerant)
  {
    var timestamp := (v: Value) => AwareTimestamp(clock, v);
    EventTimes(operation);
    TimeIsTime(clock, Calendar, operation, fields, tolerant, "time_min");
    TimeIsTime(clock, Calendar, operation, fields, tolerant, "time_max");
    TimeIsTime(clock, Calendar, operation, fields, tolerant, "start");
    TimeIsTime(clock, Calendar, operation, fields, tolerant, "end");
    OrderMeans(fields, "time_min", "time_max", tolerant, clock.instant, timestamp);
    OrderMeans(fields, "start", "end", tolerant, clock.instant, timestamp);
  }

  predicate RolePasses(operation: string, fields: seq<Field>, tolerant: bool) {
    operation == "share_file" ==> RoleAccepted(GetOr(fields, "role", Str("reader")), tolerant)
  }

  lemma {:induction false} RoleMeans(clock: Clock, operation: string, fields: seq<Field>, tolerant: bool)
    requires AreArguments(clock, Drive, operation, fields, tolerant)
    ensures RolePasses(operation, fields, tolerant) <==>
            (Has(fields, "role") ==> IsRole(Lookup(fields, "role").value, tolerant))
  {
    FileTimes(operation);
    if Has(fields, "role") {
      ArgumentIsFound(clock, Drive, operation, fields, tolerant, "role");
    }
  }

  lemma {:induction false} FileIsConsistent(clock: Clock, operation: string, fields: seq<Field>, tolerant: bool)
    requires AreArguments(clock, Drive, operation, fields, tolerant)
    ensures ValidateService(clock, Drive, fields) == Valid && RolePasses(operation, fields, tolerant)
            <==> Consistent(clock, Drive, fields, tolerant)
  {
    FileTimes(operation);
    TimeIsTime(clock, Drive, operation, fields, tolerant, "modified_after");
    TimeIsTime(clock, Drive, operation, fields, tolerant, "modified_before");
    OrderMeans(fields, "modified_after", "modified_before", tolerant, clock.instant,
               (v: Value) => AwareTimestamp(clock, v));
    RoleMeans(clock, operation, fields, tolerant);
  }

  lemma {:induction false} ServicesMean(clock: Clock, operation: string, fields: seq<Field>, tolerant: bool)
    requires AreArguments(clock, Workspace, operation, fields, tolerant)
    ensures var services := Iterated(GetOr(fields, "services", Arr([])));
            services.Some? && ServicesVerdict(services.value) == Valid <==>
            (Has(fields, "services") ==> AreSearchable(Lookup(fields, "services").value, tolerant))
  {
    SearchTimes(operation);
    if Has(fields, "services") {
      ArgumentIsFound(clock, Workspace, operation, fields, tolerant, "services");
      IterationMeans(Lookup(fields, "services").value, tolerant);
    }
  }

  lemma {:induction false} IterationMeans(v: Value, tolerant: bool)
    requires IsOpen(v, tolerant) || v.Arr?
    ensures Iterated(v).Some? && ServicesVerdict(Iterated(v).value) == Valid <==> AreSearchable(v, tolerant)
  {
    var items := Iterated(v).value;
    VerdictMeans(items);
    if v.Obj? {
      assert forall i :: 0 <= i < |v.fields| ==> v.fields[i] in v.fields && items[i] in items
                                                 && items[i] == Str(v.fields[i].key);
    }
  }

  lemma {:induction false} SearchIsConsistent(clock: Clock, operation: string, fields: seq<Field>, tolerant: bool)
    requires AreArguments(clock, Workspace, operation, fields, tolerant)
    ensures ValidateService(clock, Workspace, fields) == Valid <==> Consistent(clock, Workspace, fields, tolerant)
  {
    SearchTimes(operation);
    TimeIsTime(clock, Workspace, operation, fields, tolerant, "date_from");
    TimeIsTime(clock, Workspace, operation, fields, tolerant, "date_to");
    OrderMeans(fields, "date_from", "date_to", tolerant, clock.instant, (v: Value) => AwareTimestamp(clock, v));
    ServicesMean(clock, operation, fields, tolerant);
  }

  // ---------- validation ----------

  predicate FieldPasses(clock: Clock, service: Service, operation: string, f: Field, tolerant: bool) {
    && IsDeclared(SpecOf(service, operation), f.key)
    && (IsOpen(f.value, tolerant) || ArgumentValid(clock, service, operation, f.key, f.value))
  }

  lemma {:induction false} FieldsPass(clock: Clock, service: Service, operation: string, fields: seq<Field>,
                                      tolerant: bool)
    ensures AreArguments(clock, service, operation, fields, tolerant) <==>
            forall i :: 0 <= i < |fields| ==> FieldPasses(clock, service, operation, fields[i], tolerant)
  {
    forall f
      ensures IsArgument(clock, service, operation, f, tolerant) <==>
              FieldPasses(clock, service, operation, f, tolerant)
    {
      ArgumentMeans(clock, service, operation, f, tolerant);
    }
    assert forall i :: 0 <= i < |fields| ==> fields[i] in fields;
  }

  /** What the validator's checks before those of the service come to. */
  ghost predicate ChecksPass(clock: Clock, service: Service, operation: string, fields: seq<Field>, tolerant: bool) {
    && (forall i :: 0 <= i < |fields| ==> FieldPasses(clock, service, operation, fields[i], tolerant))
    && HasRequired(SpecOf(service, operation), fields)
    && HasMessage(operation, fields) && HasChange(operation, fields) && RolePasses(operation, fields, tolerant)
  }

  lemma {:induction false} ChecksMean(clock: Clock, service: Service, operation: string, fields: seq<Field>,
                                      tolerant: bool)
    ensures ValidateArguments(clock, service, operation, fields, tolerant) == Valid <==>
            ChecksPass(clock, service, operation, fields, tolerant) && ValidateService(clock, service, fields) == Valid
  {
  }

  lemma {:induction false} CrashComesLast(clock: Clock, service: Service, operation: string, fields: seq<Field>,
                                          tolerant: bool)
    ensures ValidateArguments(clock, service, operation, fields, tolerant) == TypeError <==>
            && ChecksPass(clock, service, operation, fields, tolerant)
            && ValidateService(clock, service, fields) == TypeError
  {
  }

  lemma {:induction false} RoleIsOfFiles(service: Service, operation: string, fields: seq<Field>, tolerant: bool)
    requires service != Drive && SpecOf(service, operation).Some?
    ensures RolePasses(operation, fields, tolerant)
  {
  }

  lemma {:induction false} ServiceIsConsistent(clock: Clock, service: Service, operation: string, fields: seq<Field>,
                                               tolerant: bool)
    requires AreArguments(clock, service, operation, fields, tolerant) && SpecOf(service, operation).Some?
    ensures ValidateService(clock, service, fields) == Valid && RolePasses(operation, fields, tolerant)
            <==> Consistent(clock, service, fields, tolerant)
  {
    match service
    case Gmail =>
      MailIsConsistent(clock, operation, fields, tolerant);
      RoleIsOfFiles(service, operation, fields, tolerant);
    case Calendar =>
      EventIsConsistent(clock, operation, fields, tolerant);
      RoleIsOfFiles(service, operation, fields, tolerant);
    case Drive =>
      FileIsConsistent(clock, operation, fields, tolerant);
    case Workspace =>
      SearchIsConsistent(clock, operation, fields, tolerant);
      RoleIsOfFiles(service, operation, fields, tolerant);
  }

  /** Validation passes exactly the calls of the catalogue's operations. */
  lemma {:induction false} ValidIffCall(clock: Clock, service: Service, operation: string, fields: seq<Field>,
                                        tolerant: bool)
    ensures ValidateArguments(clock, service, operation, fields, tolerant) == Valid <==>
            IsCall(clock, service, operation, fields, tolerant)
  {
    ChecksMean(clock, service, operation, fields, tolerant);
    FieldsPass(clock, service, operation, fields, tolerant);
    NeedsMean(service, operation, fields);
    if AreArguments(clock, service, operation, fields, tolerant) && SpecOf(service, operation).Some? {
      ServiceIsConsistent(clock, service, operation, fields, tolerant);
    }
  }

  /** A list or an object, which cannot be looked up in a set, comes behind searchable services only. */
  predicate IsUnhashable(items: seq<Value>, k: int) {
    && 0 <= k < |items| && (items[k].Arr? || items[k].Obj?)
    && forall j :: 0 <= j < k ==> IsListed(items[j])
  }

  predicate HitsUnhashable(items: seq<Value>) {
    exists k :: 0 <= k < |items| && IsUnhashable(items, k)
  }

  lemma {:induction false} UnhashableInRest(items: seq<Value>, k: int)
    requires items != [] && IsListed(items[0])
    ensures IsUnhashable(items, k) <==> IsUnhashable(items[1..], k - 1)
  {
    assert forall j :: 0 <= j < k - 1 && j < |items| - 1 ==> items[1..][j] == items[j + 1];
    assert forall j :: 0 < j < k && j < |items| ==> items[j] == items[1..][j - 1];
  }

  lemma {:induction false} UnhashableMeans(items: seq<Value>)
    ensures ServicesVerdict(items) == TypeError <==> HitsUnhashable(items)
  {
    if items != [] {
      if items[0].Arr? || items[0].Obj? {
        assert IsUnhashable(items, 0);
      } else if IsListed(items[0]) {
        UnhashableMeans(items[1..]);
        forall k ensures IsUnhashable(items, k) <==> IsUnhashable(items[1..], k - 1) {
          UnhashableInRest(items, k);
        }
        if k :| 0 <= k < |items[1..]| && IsUnhashable(items[1..], k) {
          assert IsUnhashable(items, k + 1);
        }
      }
    }
  }

  /** The services are an open list in which searching fails. */
  predicate ServicesCrash(fields: seq<Field>, tolerant: bool) {
    var v := Lookup(fields, "services");
    v.Some? && IsOpen(v.value, tolerant) && v.value.Arr? && HitsUnhashable(v.value.items)
  }

  lemma {:induction false} ServiceCrashes(clock: Clock, service: Service, operation: string, fields: seq<Field>,
                                          tolerant: bool)
    requires AreArguments(clock, service, operation, fields, tolerant)
    ensures ValidateService(clock, service, fields) == TypeError <==>
            service == Workspace && ServicesCrash(fields, tolerant)
  {
    SearchTimes(operation);
    if service == Workspace && Has(fields, "services") {
      ArgumentIsFound(clock, Workspace, operation, fields, tolerant, "services");
      var v := Lookup(fields, "services").value;
      UnhashableMeans(Iterated(v).value);
      if v.Arr? && !IsOpen(v, tolerant) {
        assert forall i :: 0 <= i < |v.items| ==> v.items[i] in v.items;
      }
    }
  }

  /** Validation fails with a TypeError exactly on an otherwise good call whose open services hold an unhashable one. */
  lemma {:induction false} CrashesIff(clock: Clock, service: Service, operation: string, fields: seq<Field>,
                                      tolerant: bool)
    ensures ValidateArguments(clock, service, operation, fields, tolerant) == TypeError <==>
            && AreArguments(clock, service, operation, fields, tolerant) && Complete(service, operation, fields)
            && service == Workspace && ServicesCrash(fields, tolerant)
  {
    CrashComesLast(clock, service, operation, fields, tolerant);
    FieldsPass(clock, service, operation, fields, tolerant);
    NeedsMean(service, operation, fields);
    if AreArguments(clock, service, operation, fields, tolerant) && SpecOf(service, operation).Some? {
      ServiceCrashes(clock, service, operation, fields, tolerant);
      if service != Drive {
        RoleIsOfFiles(service, operation, fields, tolerant);
      }
    }
  }

  /** In the tolerated mode too, the services to search are neither a reference nor a list that holds one. */
  lemma {:induction false} OpenServicesAreRefused(clock: Clock, operation: string, fields: seq<Field>, v: Value)
    requires Lookup(fields, "services") == Some(v) && ContainsStepReference(v)
    requires v.Arr? || (v.Obj? && Has(v.fields, "$step"))
    ensures ValidateArguments(clock, Workspace, operation, fields, true) != Valid
  {
    ValidIffCall(clock, Workspace, operation, fields, true);
    if v.Arr? {
      StringsHoldNoReference(v.items);
    } else {
      var i :| 0 <= i < |v.fields| && v.fields[i].key == "$step";
      assert v.fields[i] in v.fields && !IsSearchable("$step");
    }
  }

  lemma {:induction false} StringsHoldNoReference(items: seq<Value>)
    ensures (forall x :: x in items ==> x.Str?) ==> !ContainsStepReference(Arr(items))
  {
    if forall x :: x in items ==> x.Str? {
      StringListHasNoReference(items);
      ContainsAgrees(Arr(items));
    }
  }

  /** The registry hands on exactly the calls without anything open. */
  lemma {:induction false} DispatchesIffCall(clock: Clock, service: Service, operation: string, arguments: Value)
    ensures Dispatches(clock, service, operation, arguments) <==>
            arguments.Obj? && IsCall(clock, service, operation, arguments.fields, false)
  {
    if arguments.Obj? {
      ValidIffCall(clock, service, operation, arguments.fields, false);
    }
  }

  /** A plan is accepted exactly when each of its steps is such a call, open where it holds references. */
  lemma {:induction false} PlanIsAcceptedIff(clock: Clock, steps: seq<Step>)
    ensures PlanVerdict(clock, steps) == Valid <==>
            forall s :: s in steps ==>
              s.arguments.Obj? && IsCall(clock, s.service, s.operation, s.arguments.fields, true)
  {
    ValidPlanHasValidSteps(clock, steps);
    forall i | 0 <= i < |steps| && steps[i].arguments.Obj?
      ensures ValidateArguments(clock, steps[i].service, steps[i].operation, steps[i].arguments.fields, true) == Valid
              <==> IsCall(clock, steps[i].service, steps[i].operation, steps[i].arguments.fields, true)
    {
      ValidIffCall(clock, steps[i].service, steps[i].operation, steps[i].arguments.fields, true);
    }
    assert forall i :: 0 <= i < |steps| ==> steps[i] in steps;
  }

  // ---------- the registry ----------

  lemma {:induction false} OperationsHaveArguments(service: Service, operation: string)
    ensures SpecOf(service, operation).Some? <==> exists name :: ShapeOf(service, operation, name).Some?
  {
    forall name ensures ShapeOf(service, operation, name).Some? <==> IsDeclared(SpecOf(service, operation), name) {
      GmailCatalogue(operation, name);
      CalendarCatalogue(operation, name);
      DriveCatalogue(operation, name);
      WorkspaceCatalogue(operation, name);
    }
    if SpecOf(service, operation).Some? {
      var name := AnArgument(service, operation);
      assert ShapeOf(service, operation, name).Some?;
    }
  }

  lemma {:induction false} AnArgument(service: Service, operation: string) returns (name: string)
    requires SpecOf(service, operation).Some?
    ensures IsDeclared(SpecOf(service, operation), name)
  {
    var spec := SpecOf(service, operation).value;
    name :| name in spec.required + spec.optional;
  }

  /**
   The registry supports the operations that take arguments, asks for approval of those that do
   more than read, and hands a call that passes to the agent as it is; any other call raises.
   */
  lemma {:induction false} RegistryHandsOnCalls(clock: Clock, agent: Agent, service: Service, operation: string,
                                                arguments: Value)
    ensures var registry := WorkspaceRegistry(clock, agent);
            && (registry.supports(service, operation) <==> exists name :: ShapeOf(service, operation, name).Some?)
            && (registry.requiresApproval(service, operation) <==>
                 registry.supports(service, operation) && !OnlyReads(operation))
            && registry.execute(service, operation, arguments) ==
               if arguments.Obj? && IsCall(clock, service, operation, arguments.fields, false)
               then agent(service, operation, arguments) else Raised
  {
    OperationsHaveArguments(service, operation);
    WritesNeedApproval(service, operation);
    DispatchesIffCall(clock, service, operation, arguments);
  }
}
